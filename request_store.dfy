/**
 * The request queue of one manager: a directory per status holding request
 * files, and a counter file with the last id handed out. The status of a
 * request is the directory its file is in; moving between statuses is a
 * rename. The login name and today's date are parameters.
 */
module RequestStore {
  import opened Wrappers
  import opened Text
  import opened RequestNames
  import opened RequestPayload

  /** The status directories that exist, each with its file names and their contents. */
  type Dirs = map<Status, map<string, string>>

  datatype StoreError =
    | BadName(name: string, error: ParseError)  // a name in a scanned directory does not parse
    | BadContent                                // `BadFileContent` when reading a request
    | NoSuchFile                                // a missing file, directory or counter file
    | NotCreating                               // `_write` outside the CREATING status
    | NotExactlyOne                             // `get_by_id` did not find exactly one request
    | NotWithdrawable(status: Status)           // `withdraw` of a request not in NOT_STARTED

  /** A request found by `scan`: its file name, the directory it sits in and its id. */
  datatype Listed = Listed(name: string, status: Status, reqid: nat)

  // ---------------------------------------------------------------------
  // directory updates

  predicate CanRename(d: Dirs, name: string, from: Status, to: Status)
  {
    from in d && name in d[from] && to in d
  }

  /**
   * `os.rename` of a request file from one status directory to another. A
   * file of the same name in the target is replaced; nothing else changes.
   */
  function Renamed(d: Dirs, name: string, from: Status, to: Status): (e: Dirs)
    requires CanRename(d, name, from, to)
    ensures e.Keys == d.Keys
    ensures name in e[to] && e[to][name] == d[from][name]
    ensures from != to ==> name !in e[from]
    ensures forall s :: s in d && s != from && s != to ==> e[s] == d[s]
    ensures forall s, n :: s in d && n != name ==> (n in e[s] <==> n in d[s])
    ensures forall s, n :: s in d && n != name && n in e[s] ==> e[s][n] == d[s][n]
  {
    var d' := d[from := d[from] - {name}];
    d'[to := d'[to][name := d[from][name]]]
  }

  /** A file found in one directory only is, after the rename, in the target directory only. */
  lemma RenameKeepsOneLocation(d: Dirs, name: string, from: Status, to: Status)
    requires CanRename(d, name, from, to)
    requires forall s :: s in d && s != from ==> name !in d[s]
    ensures var e := Renamed(d, name, from, to);
      forall s :: s in e ==> (name in e[s] <==> s == to)
  {
    var e := Renamed(d, name, from, to);
    forall s | s in e
      ensures name in e[s] <==> s == to
    {
      if s != from && s != to {
        assert e[s] == d[s];
      }
    }
  }

  /** Writing `content` as file `name` of the directory of `s`. */
  function Written(d: Dirs, s: Status, name: string, content: string): (e: Dirs)
    requires s in d
    ensures e.Keys == d.Keys && name in e[s] && e[s][name] == content
    ensures forall t :: t in d && t != s ==> e[t] == d[t]
    ensures forall n :: n != name ==> (n in e[s] <==> n in d[s])
  {
    d[s := d[s][name := content]]
  }

  // ---------------------------------------------------------------------
  // initialise

  lemma EveryStatusListed()
    ensures forall s: Status :: s in AllStatuses
  {
    forall s: Status
      ensures s in AllStatuses
    {
      AllStatusesComplete(s);
    }
  }

  /** The directories after `initialise`: every status directory exists, the old ones untouched. */
  function InitDirs(d: Dirs): (e: Dirs)
    ensures forall s: Status :: s in e
    ensures forall s :: s in d ==> e[s] == d[s]
    ensures forall s :: s !in d ==> e[s] == map[]
  {
    EveryStatusListed();
    map s | s in AllStatuses :: if s in d then d[s] else map[]
  }

  /** The counter after `initialise`: set to 0 only when the counter file is absent. */
  function InitCounter(c: Option<nat>): (c': Option<nat>)
    ensures c.Some? ==> c' == c
    ensures c.None? ==> c' == Some(0)
  {
    if c.None? then Some(0) else c
  }

  /** Running `initialise` a second time changes nothing. */
  lemma InitialiseIdempotent(d: Dirs, c: Option<nat>)
    ensures InitDirs(InitDirs(d)) == InitDirs(d)
    ensures InitCounter(InitCounter(c)) == InitCounter(c)
  {
    var e := InitDirs(d);
    var e' := InitDirs(e);
    assert e'.Keys == e.Keys;
    forall s | s in e
      ensures e'[s] == e[s]
    {
    }
  }

  // ---------------------------------------------------------------------
  // scan

  /** The statuses `scan` reads when none are given: all but CREATING. */
  const DefaultStatuses: seq<Status> := [NotStarted, Doing, Done, Failed, Withdrawn]

  lemma DefaultStatusesAllButCreating(s: Status)
    ensures s in DefaultStatuses <==> s != Creating
  {
  }

  function ScanStatuses(statuses: Option<seq<Status>>): seq<Status>
  {
    if statuses.None? then DefaultStatuses else statuses.value
  }

  /** A name `scan` keeps: it parses, has the wanted id (if any) and belongs to the wanted user (if any). */
  predicate Wanted(name: string, reqid: Option<nat>, user: Option<string>)
  {
    var p := ParseFilename(name);
    p.Success? && (reqid.None? || p.value.reqid == reqid.value) && (user.None? || p.value.user == user.value)
  }

  function IdOf(name: string): nat
    requires ParseFilename(name).Success?
  {
    ParseFilename(name).value.reqid
  }

  /** The requests among `names` of the directory of `s` that `scan` keeps. */
  function ListedAmong(names: set<string>, s: Status, reqid: Option<nat>, user: Option<string>): set<Listed>
  {
    set n | n in names && Wanted(n, reqid, user) :: Listed(n, s, IdOf(n))
  }

  function ListedIn(d: Dirs, s: Status, reqid: Option<nat>, user: Option<string>): set<Listed>
    requires s in d
  {
    ListedAmong(d[s].Keys, s, reqid, user)
  }

  predicate DirsPresent(d: Dirs, ss: seq<Status>)
  {
    forall i :: 0 <= i < |ss| ==> ss[i] in d
  }

  /** Every directory to scan exists and every name in it parses: `scan` raises otherwise. */
  predicate ScanOk(d: Dirs, ss: seq<Status>)
  {
    forall i :: 0 <= i < |ss| ==> ss[i] in d && forall n :: n in d[ss[i]] ==> ParseFilename(n).Success?
  }

  /** The requests `scan` collects from the directories of `ss`, in any order. */
  function Selected(d: Dirs, ss: seq<Status>, reqid: Option<nat>, user: Option<string>): multiset<Listed>
    requires DirsPresent(d, ss)
    decreases |ss|
  {
    if ss == [] then multiset{}
    else Selected(d, ss[..|ss| - 1], reqid, user) + multiset(ListedIn(d, ss[|ss| - 1], reqid, user))
  }

  /** One more directory read by `scan`: its requests join the collection. */
  lemma ScanStep(d: Dirs, ss: seq<Status>, i: nat, reqid: Option<nat>, user: Option<string>)
    requires i < |ss| && ScanOk(d, ss[..i]) && ss[i] in d
    requires forall n :: n in d[ss[i]] ==> ParseFilename(n).Success?
    ensures ScanOk(d, ss[..i + 1])
    ensures Selected(d, ss[..i + 1], reqid, user) == Selected(d, ss[..i], reqid, user) + multiset(ListedIn(d, ss[i], reqid, user))
  {
    assert ss[..i + 1][..i] == ss[..i];
    assert ss[..i + 1][i] == ss[i];
  }

  /** A missing directory, or a name that does not parse in one, makes the whole scan fail. */
  lemma ScanFails(d: Dirs, ss: seq<Status>, i: nat)
    requires i < |ss|
    requires ss[i] !in d || !(forall n :: n in d[ss[i]] ==> ParseFilename(n).Success?)
    ensures !ScanOk(d, ss)
  {
  }

  predicate SortedById(s: seq<Listed>)
  {
    forall i, j :: 0 <= i < j < |s| ==> s[i].reqid <= s[j].reqid
  }

  /** Insert `x` after every entry whose id is not larger, as a stable sort does. */
  function InsertById(t: seq<Listed>, x: Listed): (u: seq<Listed>)
    ensures |u| == |t| + 1 && multiset(u) == multiset(t) + multiset{x}
    ensures u[0] == x || (t != [] && u[0] == t[0])
    decreases |t|
  {
    if t == [] then [x]
    else if x.reqid < t[0].reqid then [x] + t
    else
      var rest := InsertById(t[1..], x);
      assert t == [t[0]] + t[1..];
      [t[0]] + rest
  }

  /** Inserting into a list sorted by id keeps it sorted. */
  lemma {:induction false} InsertByIdSorted(t: seq<Listed>, x: Listed)
    requires SortedById(t)
    ensures SortedById(InsertById(t, x))
    decreases |t|
  {
    if t != [] {
      var u := InsertById(t, x);
      if x.reqid < t[0].reqid {
        forall i, j | 0 <= i < j < |u| ensures u[i].reqid <= u[j].reqid {
          if i == 0 {
            assert u[j] == t[j - 1];
          } else {
            assert u[i] == t[i - 1] && u[j] == t[j - 1];
          }
        }
      } else {
        var rest := InsertById(t[1..], x);
        InsertByIdSorted(t[1..], x);
        assert u == [t[0]] + rest;
        assert t[0].reqid <= rest[0].reqid;
        forall i, j | 0 <= i < j < |u| ensures u[i].reqid <= u[j].reqid {
          if i == 0 && j > 1 {
            assert rest[0].reqid <= rest[j - 1].reqid;
          }
        }
      }
    }
  }

  /** `reqs.sort(key=lambda req: req.reqid)`. */
  method SortById(s: seq<Listed>) returns (t: seq<Listed>)
    ensures SortedById(t) && multiset(t) == multiset(s)
  {
    t := [];
    var i := 0;
    while i < |s|
      invariant 0 <= i <= |s|
      invariant SortedById(t) && multiset(t) == multiset(s[..i])
    {
      InsertByIdSorted(t, s[i]);
      t := InsertById(t, s[i]);
      assert s[..i + 1] == s[..i] + [s[i]];
      i := i + 1;
    }
    assert s[..i] == s;
  }

  lemma ListedAmongAdd(done: set<string>, n: string, s: Status, reqid: Option<nat>, user: Option<string>)
    requires n !in done
    ensures Wanted(n, reqid, user) ==>
      multiset(ListedAmong(done + {n}, s, reqid, user))
        == multiset(ListedAmong(done, s, reqid, user)) + multiset{Listed(n, s, IdOf(n))}
    ensures !Wanted(n, reqid, user) ==>
      ListedAmong(done + {n}, s, reqid, user) == ListedAmong(done, s, reqid, user)
  {
    var a := ListedAmong(done, s, reqid, user);
    var b := ListedAmong(done + {n}, s, reqid, user);
    if Wanted(n, reqid, user) {
      var x := Listed(n, s, IdOf(n));
      forall y | y in b
        ensures y in a + {x}
      {
        if y.name != n {
          assert y.name in done;
        }
      }
      assert b == a + {x};
      assert x !in a;
    } else {
      forall y | y in b
        ensures y in a
      {
        assert y.name in done;
      }
      assert b == a;
    }
  }

  /** One name of a directory read by `scan`: a kept request is appended, and the collection follows `ListedAmong`. */
  lemma ScanDirStep(keys: set<string>, todo: set<string>, n: string, s: Status, reqid: Option<nat>, user: Option<string>,
                    found: seq<Listed>, acc: seq<Listed>)
    requires n in todo && todo <= keys
    requires multiset(acc) == multiset(found) + multiset(ListedAmong(keys - todo, s, reqid, user))
    ensures var acc' := if Wanted(n, reqid, user) then acc + [Listed(n, s, IdOf(n))] else acc;
      multiset(acc') == multiset(found) + multiset(ListedAmong(keys - (todo - {n}), s, reqid, user))
  {
    ListedAmongAdd(keys - todo, n, s, reqid, user);
    assert keys - (todo - {n}) == (keys - todo) + {n};
  }

  // ---------------------------------------------------------------------
  // withdraw, as a function of the directories

  /**
   * The directories after `withdraw(reqid)` by `login`, or None when it
   * raises: the scan must succeed, find exactly one request of that id and
   * user, and that request must be NOT_STARTED; it then moves to WITHDRAWN.
   */
  ghost function WithdrawResult(d: Dirs, reqid: nat, login: string): Option<Dirs>
  {
    if !ScanOk(d, DefaultStatuses) then None
    else
      var m := Selected(d, DefaultStatuses, Some(reqid), Some(login));
      if |m| != 1 then None
      else
        var x :| x in m;
        if x.status != NotStarted || !CanRename(d, x.name, NotStarted, Withdrawn) then None
        else Some(Renamed(d, x.name, NotStarted, Withdrawn))
  }

  lemma {:induction false} SelectedMember(d: Dirs, ss: seq<Status>, reqid: Option<nat>, user: Option<string>, x: Listed)
    requires DirsPresent(d, ss)
    requires x in Selected(d, ss, reqid, user)
    ensures x.status in ss && x.status in d && x.name in d[x.status] && Wanted(x.name, reqid, user)
    ensures x.reqid == IdOf(x.name)
    decreases |ss|
  {
    var last := ss[|ss| - 1];
    if x in multiset(ListedIn(d, last, reqid, user)) {
    } else {
      SelectedMember(d, ss[..|ss| - 1], reqid, user, x);
    }
  }

  lemma {:induction false} SelectedIncludes(d: Dirs, ss: seq<Status>, k: nat, reqid: Option<nat>, user: Option<string>, x: Listed)
    requires DirsPresent(d, ss)
    requires k < |ss| && x in ListedIn(d, ss[k], reqid, user)
    ensures x in Selected(d, ss, reqid, user)
    decreases |ss|
  {
    if k < |ss| - 1 {
      SelectedIncludes(d, ss[..|ss| - 1], k, reqid, user, x);
    }
  }

  lemma SingletonMember<T>(m: multiset<T>, y: T, z: T)
    requires |m| == 1 && y in m && z in m
    ensures y == z
  {
    var rest := m - multiset{z};
    assert m == rest + multiset{z};
    assert |rest| == 0;
    assert rest == multiset{};
  }

  /** A request just withdrawn cannot be withdrawn again. */
  lemma WithdrawTwiceFails(d: Dirs, reqid: nat, login: string)
    requires WithdrawResult(d, reqid, login).Some?
    ensures WithdrawResult(WithdrawResult(d, reqid, login).value, reqid, login).None?
  {
    var ss := DefaultStatuses;
    var m := Selected(d, ss, Some(reqid), Some(login));
    var x :| x in m && x.status == NotStarted && CanRename(d, x.name, NotStarted, Withdrawn)
      && WithdrawResult(d, reqid, login) == Some(Renamed(d, x.name, NotStarted, Withdrawn));
    var e := Renamed(d, x.name, NotStarted, Withdrawn);
    SelectedMember(d, ss, Some(reqid), Some(login), x);
    if ScanOk(e, ss) {
      var y := Listed(x.name, Withdrawn, x.reqid);
      assert y in ListedIn(e, ss[4], Some(reqid), Some(login));
      SelectedIncludes(e, ss, 4, Some(reqid), Some(login), y);
      var m' := Selected(e, ss, Some(reqid), Some(login));
      if |m'| == 1 {
        forall z | z in m'
          ensures z.status != NotStarted
        {
          SingletonMember(m', y, z);
        }
      }
    }
  }

  // ---------------------------------------------------------------------
  // consistency of the directories with the counter

  /** A request file name that parses, with an id no larger than `k`. */
  predicate NameOk(n: string, k: nat)
  {
    ParseFilename(n).Success? && IdOf(n) <= k
  }

  predicate NamesOk(files: map<string, string>, k: nat)
  {
    forall n :: n in files ==> NameOk(n, k)
  }

  /** Every request file parses and no id exceeds the counter. */
  predicate Consistent(d: Dirs, lastId: Option<nat>)
  {
    lastId.Some? && forall s :: s in d ==> NamesOk(d[s], lastId.value)
  }

  /** The directories after `create_request` has written `name` and moved it to NOT_STARTED. */
  function Created(d: Dirs, name: string, payload: Payload): (e: Dirs)
    requires Creating in d && NotStarted in d
  {
    Renamed(Written(d, Creating, name, Encode(payload)), name, Creating, NotStarted)
  }

  /** Renaming keeps the directories consistent with the counter. */
  lemma RenameConsistent(d: Dirs, c: Option<nat>, name: string, from: Status, to: Status)
    requires Consistent(d, c) && CanRename(d, name, from, to)
    ensures Consistent(Renamed(d, name, from, to), c)
  {
    var e := Renamed(d, name, from, to);
    forall s | s in e
      ensures NamesOk(e[s], c.value)
    {
      forall n | n in e[s]
        ensures NameOk(n, c.value)
      {
        if n == name {
          assert NamesOk(d[from], c.value) && name in d[from];
        } else {
          assert NamesOk(d[s], c.value) && n in d[s];
        }
      }
    }
  }

  /** A newly created request reads back as its payload from NOT_STARTED. */
  lemma ReadAfterCreate(d: Dirs, name: string, payload: Payload)
    requires Creating in d && NotStarted in d && Encodable(payload)
    ensures var e := Created(d, name, payload);
      name in e[NotStarted] && Decode(KindOf(payload), e[NotStarted][name]) == Success(Normal(payload))
  {
    DecodeEncode(payload);
  }

  lemma {:induction false} SelectedOnly(d: Dirs, ss: seq<Status>, reqid: Option<nat>, user: Option<string>, x: Listed)
    requires DirsPresent(d, ss)
    requires forall i :: 0 <= i < |ss| ==> ListedIn(d, ss[i], reqid, user) == if ss[i] == x.status then {x} else {}
    ensures forall y :: Selected(d, ss, reqid, user)[y] == if y == x then multiset(ss)[x.status] else 0
    decreases |ss|
  {
    if ss != [] {
      var front := ss[..|ss| - 1];
      assert ss == front + [ss[|ss| - 1]];
      SelectedOnly(d, front, reqid, user, x);
    }
  }

  lemma CreatedListedIn(d: Dirs, k: nat, name: string, payload: Payload, user: Option<string>, s: Status)
    requires Consistent(d, Some(k)) && Creating in d && NotStarted in d && s in d
    requires ParseFilename(name).Success? && IdOf(name) == k + 1
    requires user.None? || user == Some(ParseFilename(name).value.user)
    ensures ListedIn(Created(d, name, payload), s, Some(k + 1), user)
        == if s == NotStarted then {Listed(name, NotStarted, k + 1)} else {}
  {
    var e := Created(d, name, payload);
    var x := Listed(name, NotStarted, k + 1);
    var l := ListedIn(e, s, Some(k + 1), user);
    forall y | y in l
      ensures y == x
    {
      assert y.name in e[s] && IdOf(y.name) == k + 1;
    }
    if s == NotStarted {
      assert x in l;
    }
  }

  /** Adding a file whose id is one past the counter keeps the queue consistent with the advanced counter. */
  lemma CreatedConsistent(d: Dirs, k: nat, name: string, payload: Payload)
    requires Consistent(d, Some(k)) && Creating in d && NotStarted in d
    requires ParseFilename(name).Success? && IdOf(name) == k + 1
    ensures Consistent(Created(d, name, payload), Some(k + 1))
  {
    var e := Created(d, name, payload);
    forall s | s in e
      ensures NamesOk(e[s], k + 1)
    {
      forall n | n in e[s]
        ensures NameOk(n, k + 1)
      {
        CreatedEntry(d, k, name, payload, s, n);
      }
    }
  }

  lemma CreatedEntry(d: Dirs, k: nat, name: string, payload: Payload, s: Status, n: string)
    requires Consistent(d, Some(k)) && Creating in d && NotStarted in d
    requires ParseFilename(name).Success? && IdOf(name) == k + 1
    requires s in d && n in Created(d, name, payload)[s]
    ensures NameOk(n, k + 1)
  {
    if n != name {
      CreatedOtherNames(d, name, payload, s, n);
      assert NamesOk(d[s], k) && n in d[s];
    }
  }

  /** Every file of the created queue other than the new one was already there. */
  lemma CreatedOtherNames(d: Dirs, name: string, payload: Payload, s: Status, n: string)
    requires Creating in d && NotStarted in d
    requires s in d && n != name && n in Created(d, name, payload)[s]
    ensures n in d[s]
  {
    var w := Written(d, Creating, name, Encode(payload));
    assert n in w[s];
    if s != Creating {
      assert w[s] == d[s];
    }
  }

  lemma CreatedSelected(d: Dirs, k: nat, name: string, payload: Payload, user: Option<string>)
    requires Consistent(d, Some(k)) && Creating in d && NotStarted in d
    requires DirsPresent(d, DefaultStatuses)
    requires ParseFilename(name).Success? && IdOf(name) == k + 1
    requires user.None? || user == Some(ParseFilename(name).value.user)
    ensures DirsPresent(Created(d, name, payload), DefaultStatuses)
    ensures Selected(Created(d, name, payload), DefaultStatuses, Some(k + 1), user) == multiset{Listed(name, NotStarted, k + 1)}
  {
    DefaultStatusesOnce();
    CreatedSelectedIn(d, k, name, payload, user, DefaultStatuses);
  }

  /** The scan for the new id over directories that list NOT_STARTED once finds the new request once. */
  lemma CreatedSelectedIn(d: Dirs, k: nat, name: string, payload: Payload, user: Option<string>, ss: seq<Status>)
    requires Consistent(d, Some(k)) && Creating in d && NotStarted in d
    requires DirsPresent(d, ss) && multiset(ss)[NotStarted] == 1
    requires ParseFilename(name).Success? && IdOf(name) == k + 1
    requires user.None? || user == Some(ParseFilename(name).value.user)
    ensures DirsPresent(Created(d, name, payload), ss)
    ensures Selected(Created(d, name, payload), ss, Some(k + 1), user) == multiset{Listed(name, NotStarted, k + 1)}
  {
    var e := Created(d, name, payload);
    var x := Listed(name, NotStarted, k + 1);
    forall i | 0 <= i < |ss|
      ensures ListedIn(e, ss[i], Some(k + 1), user) == if ss[i] == NotStarted then {x} else {}
    {
      CreatedListedIn(d, k, name, payload, user, ss[i]);
    }
    SelectedExactlyOne(e, ss, Some(k + 1), user, x);
  }

  lemma DefaultStatusesOnce()
    ensures multiset(DefaultStatuses)[NotStarted] == 1
  {
  }

  lemma SelectedExactlyOne(d: Dirs, ss: seq<Status>, reqid: Option<nat>, user: Option<string>, x: Listed)
    requires DirsPresent(d, ss)
    requires forall i :: 0 <= i < |ss| ==> ListedIn(d, ss[i], reqid, user) == if ss[i] == x.status then {x} else {}
    requires multiset(ss)[x.status] == 1
    ensures Selected(d, ss, reqid, user) == multiset{x}
  {
    SelectedOnly(d, ss, reqid, user, x);
    var m := Selected(d, ss, reqid, user);
    assert forall y :: m[y] == multiset{x}[y];
  }

  /**
   * Creating a request from a consistent queue, with a login name that
   * parses and a real date, gives a consistent queue in which the default
   * scan for the new id finds the new request once, in NOT_STARTED.
   */
  lemma CreateVisibleOnce(d: Dirs, k: nat, login: string, today: Date, payload: Payload, user: Option<string>)
    requires Consistent(d, Some(k)) && Creating in d && NotStarted in d
    requires DirsPresent(d, DefaultStatuses)
    requires login != "" && '-' !in login && ValidDate(today)
    requires user.None? || user == Some(login)
    ensures var name := MakeFilename(login, k + 1, today);
      var e := Created(d, name, payload);
      Consistent(e, Some(k + 1))
      && DirsPresent(e, DefaultStatuses)
      && Selected(e, DefaultStatuses, Some(k + 1), user) == multiset{Listed(name, NotStarted, k + 1)}
  {
    var name := MakeFilename(login, k + 1, today);
    ParseMakeRoundTrip(login, k + 1, today);
    CreatedConsistent(d, k, name, payload);
    CreatedSelected(d, k, name, payload, user);
  }

  // ---------------------------------------------------------------------
  // the manager

  class Manager {
    const kind: Kind
    var dirs: Dirs
    var lastId: Option<nat>

    constructor(kind: Kind, dirs: Dirs, lastId: Option<nat>)
      ensures this.kind == kind && this.dirs == dirs && this.lastId == lastId
    {
      this.kind := kind;
      this.dirs := dirs;
      this.lastId := lastId;
    }

    /** `initialise`: make each missing status directory, and the counter file at 0 if absent. */
    method Initialise()
      modifies this
      ensures dirs == InitDirs(old(dirs)) && lastId == InitCounter(old(lastId))
    {
      var i := 0;
      while i < |AllStatuses|
        invariant 0 <= i <= |AllStatuses|
        invariant forall s :: s in dirs <==> s in old(dirs) || s in AllStatuses[..i]
        invariant forall s :: s in old(dirs) ==> dirs[s] == old(dirs)[s]
        invariant forall s :: s in dirs && s !in old(dirs) ==> dirs[s] == map[]
        invariant lastId == old(lastId)
      {
        var s := AllStatuses[i];
        if s !in dirs {
          dirs := dirs[s := map[]];
        }
        assert AllStatuses[..i + 1] == AllStatuses[..i] + [s];
        i := i + 1;
      }
      assert AllStatuses[..i] == AllStatuses;
      if lastId.None? {
        lastId := Some(0);
      }
    }

    /** `_get_next_id`: read the counter, add one, write it back. */
    method NextId() returns (r: Result<nat, StoreError>)
      modifies this
      ensures old(lastId).None? ==> r == Failure(NoSuchFile) && lastId == old(lastId)
      ensures old(lastId).Some? ==> r == Success(old(lastId).value + 1) && lastId == Some(old(lastId).value + 1)
      ensures dirs == old(dirs)
    {
      if lastId.None? {
        return Failure(NoSuchFile);
      }
      var next := lastId.value + 1;
      lastId := Some(next);
      return Success(next);
    }

    /** `move_request_file`: rename the file between two status directories. */
    method MoveRequestFile(name: string, from: Status, to: Status) returns (r: Outcome<StoreError>)
      modifies this
      ensures CanRename(old(dirs), name, from, to) ==> r == Pass && dirs == Renamed(old(dirs), name, from, to)
      ensures !CanRename(old(dirs), name, from, to) ==> r == Fail(NoSuchFile) && dirs == old(dirs)
      ensures lastId == old(lastId)
    {
      if !CanRename(dirs, name, from, to) {
        return Fail(NoSuchFile);
      }
      dirs := Renamed(dirs, name, from, to);
      return Pass;
    }

    /**
     * `scan(statuses, reqid, all_users)`, with `user` None for all users and
     * the login name otherwise: the kept requests of every directory read,
     * sorted by id; any missing directory or unparsable name aborts it.
     */
    method Scan(statuses: Option<seq<Status>>, reqid: Option<nat>, user: Option<string>)
      returns (r: Result<seq<Listed>, StoreError>)
      ensures r.Success? <==> ScanOk(dirs, ScanStatuses(statuses))
      ensures r.Success? ==> (SortedById(r.value)
        && multiset(r.value) == Selected(dirs, ScanStatuses(statuses), reqid, user))
    {
      var ss := ScanStatuses(statuses);
      var found: seq<Listed> := [];
      var i := 0;
      while i < |ss|
        invariant 0 <= i <= |ss|
        invariant ScanOk(dirs, ss[..i])
        invariant multiset(found) == Selected(dirs, ss[..i], reqid, user)
      {
        var s := ss[i];
        if s !in dirs {
          ScanFails(dirs, ss, i);
          return Failure(NoSuchFile);
        }
        var more := ScanDir(s, reqid, user, found);
        if more.Failure? {
          ScanFails(dirs, ss, i);
          return Failure(more.error);
        }
        found := more.value;
        ScanStep(dirs, ss, i, reqid, user);
        i := i + 1;
      }
      assert ss[..i] == ss;
      var sorted := SortById(found);
      return Success(sorted);
    }

    /** The inner loop of `scan`: the kept requests of one directory, appended to `found`. */
    method ScanDir(s: Status, reqid: Option<nat>, user: Option<string>, found: seq<Listed>)
      returns (r: Result<seq<Listed>, StoreError>)
      requires s in dirs
      ensures r.Success? <==> forall n :: n in dirs[s] ==> ParseFilename(n).Success?
      ensures r.Success? ==> multiset(r.value) == multiset(found) + multiset(ListedIn(dirs, s, reqid, user))
    {
      var todo := dirs[s].Keys;
      var acc := found;
      while todo != {}
        invariant todo <= dirs[s].Keys
        invariant forall n :: n in dirs[s] && n !in todo ==> ParseFilename(n).Success?
        invariant multiset(acc) == multiset(found) + multiset(ListedAmong(dirs[s].Keys - todo, s, reqid, user))
        decreases |todo|
      {
        var n :| n in todo;
        var p := ParseFilename(n);
        if p.Failure? {
          return Failure(BadName(n, p.error));
        }
        ghost var acc0 := acc;
        if (reqid.None? || p.value.reqid == reqid.value) && (user.None? || p.value.user == user.value) {
          acc := acc + [Listed(n, s, p.value.reqid)];
        }
        assert acc == if Wanted(n, reqid, user) then acc0 + [Listed(n, s, IdOf(n))] else acc0;
        ScanDirStep(dirs[s].Keys, todo, n, s, reqid, user, found, acc0);
        todo := todo - {n};
      }
      assert dirs[s].Keys - todo == dirs[s].Keys;
      return Success(acc);
    }

    /** `get_by_id`: the one request the scan finds for `reqid`, or an error. */
    method GetById(reqid: nat, statuses: Option<seq<Status>>, user: Option<string>)
      returns (r: Result<Listed, StoreError>)
      ensures r.Success? <==> (ScanOk(dirs, ScanStatuses(statuses))
        && |Selected(dirs, ScanStatuses(statuses), Some(reqid), user)| == 1)
      ensures r.Success? ==> Selected(dirs, ScanStatuses(statuses), Some(reqid), user) == multiset{r.value}
    {
      var reqs := Scan(statuses, Some(reqid), user);
      if reqs.Failure? {
        return Failure(reqs.error);
      }
      if |reqs.value| != 1 {
        return Failure(NotExactlyOne);
      }
      assert reqs.value == [reqs.value[0]];
      return Success(reqs.value[0]);
    }

    /** `withdraw(reqid)` by `login`: only a NOT_STARTED request moves, to WITHDRAWN. */
    method Withdraw(reqid: nat, login: string) returns (r: Outcome<StoreError>)
      modifies this
      ensures r.Pass? <==> WithdrawResult(old(dirs), reqid, login).Some?
      ensures r.Pass? ==> dirs == WithdrawResult(old(dirs), reqid, login).value
      ensures r.Fail? ==> dirs == old(dirs)
      ensures lastId == old(lastId)
    {
      var req := GetById(reqid, None, Some(login));
      if req.Failure? {
        return Fail(req.error);
      }
      var x := req.value;
      ghost var m := Selected(dirs, DefaultStatuses, Some(reqid), Some(login));
      assert x in m;
      assert forall y :: y in m ==> y == x by {
        forall y | y in m
          ensures y == x
        {
          SingletonMember(m, y, x);
        }
      }
      if x.status != NotStarted {
        return Fail(NotWithdrawable(x.status));
      }
      SelectedMember(dirs, DefaultStatuses, Some(reqid), Some(login), x);
      r := MoveRequestFile(x.name, NotStarted, Withdrawn);
    }

    /**
     * `create_request(payload)` by `login` on `today`: take the next id, write
     * the request under CREATING and move it to NOT_STARTED.
     */
    method CreateRequest(login: string, today: Date, payload: Payload) returns (r: Result<Request, StoreError>)
      requires KindOf(payload) == kind
      modifies this
      ensures old(lastId).None? ==> r == Failure(NoSuchFile) && dirs == old(dirs) && lastId == old(lastId)
      ensures old(lastId).Some? ==> lastId == Some(old(lastId).value + 1)
      ensures r.Success? <==> old(lastId).Some? && Creating in old(dirs) && NotStarted in old(dirs)
      ensures old(lastId).Some? && Creating !in old(dirs) ==> dirs == old(dirs)
      ensures old(lastId).Some? && Creating in old(dirs) && NotStarted !in old(dirs) ==>
        dirs == Written(old(dirs), Creating, MakeFilename(login, old(lastId).value + 1, today), Encode(payload))
      ensures r.Success? ==> (fresh(r.value) && r.value.store == this
        && r.value.reqid == old(lastId).value + 1
        && r.value.filename == MakeFilename(login, r.value.reqid, today)
        && r.value.status == NotStarted
        && dirs == Created(old(dirs), r.value.filename, payload))
    {
      var next := NextId();
      if next.Failure? {
        return Failure(next.error);
      }
      var name := MakeFilename(login, next.value, today);
      var req := new Request(name, this, Creating, next.value);
      var o := req.Create(payload);
      if o.Fail? {
        return Failure(o.error);
      }
      return Success(req);
    }
  }

  // ---------------------------------------------------------------------
  // one request

  class Request {
    const filename: string
    const reqid: nat
    const store: Manager
    var status: Status

    /** A request whose id is already known; the variant that re-parses the file name is not modelled. */
    constructor(filename: string, store: Manager, status: Status, reqid: nat)
      ensures this.filename == filename && this.store == store && this.status == status && this.reqid == reqid
    {
      this.filename := filename;
      this.store := store;
      this.status := status;
      this.reqid := reqid;
    }

    /** `_write`: only a CREATING request may be written, and only into the CREATING directory. */
    method Write(payload: Payload) returns (r: Outcome<StoreError>)
      requires KindOf(payload) == store.kind
      modifies store
      ensures status != Creating ==> r == Fail(NotCreating) && store.dirs == old(store.dirs)
      ensures status == Creating && Creating !in old(store.dirs) ==>
        r == Fail(NoSuchFile) && store.dirs == old(store.dirs)
      ensures status == Creating && Creating in old(store.dirs) ==>
        r == Pass && store.dirs == Written(old(store.dirs), Creating, filename, Encode(payload))
      ensures store.lastId == old(store.lastId)
    {
      if status != Creating {
        return Fail(NotCreating);
      }
      if Creating !in store.dirs {
        return Fail(NoSuchFile);
      }
      store.dirs := Written(store.dirs, Creating, filename, Encode(payload));
      return Pass;
    }

    /** `set_status`: move the file, then record the new status; a failed move changes nothing. */
    method SetStatus(newStatus: Status) returns (r: Outcome<StoreError>)
      modifies this, store
      ensures CanRename(old(store.dirs), filename, old(status), newStatus) ==>
        r == Pass && status == newStatus && store.dirs == Renamed(old(store.dirs), filename, old(status), newStatus)
      ensures !CanRename(old(store.dirs), filename, old(status), newStatus) ==>
        r.Fail? && status == old(status) && store.dirs == old(store.dirs)
      ensures store.lastId == old(store.lastId)
    {
      r := store.MoveRequestFile(filename, status, newStatus);
      if r.Pass? {
        status := newStatus;
      }
    }

    /** `create`: write the payload, then move the request to NOT_STARTED. */
    method Create(payload: Payload) returns (r: Outcome<StoreError>)
      requires KindOf(payload) == store.kind
      modifies this, store
      ensures old(status) != Creating ==> r == Fail(NotCreating) && status == old(status) && store.dirs == old(store.dirs)
      ensures old(status) == Creating && Creating !in old(store.dirs) ==>
        r.Fail? && status == old(status) && store.dirs == old(store.dirs)
      ensures old(status) == Creating && Creating in old(store.dirs) && NotStarted !in old(store.dirs) ==>
        r.Fail? && status == Creating && store.dirs == Written(old(store.dirs), Creating, filename, Encode(payload))
      ensures old(status) == Creating && Creating in old(store.dirs) && NotStarted in old(store.dirs) ==>
        r == Pass && status == NotStarted && store.dirs == Created(old(store.dirs), filename, payload)
      ensures store.lastId == old(store.lastId)
    {
      r := Write(payload);
      if r.Fail? {
        return;
      }
      r := SetStatus(NotStarted);
    }

    /** `read`: decode the file of this request from its status directory. */
    method Read() returns (r: Result<Payload, StoreError>)
      ensures r.Success? <==> (status in store.dirs && filename in store.dirs[status]
        && Decode(store.kind, store.dirs[status][filename]).Success?)
      ensures r.Success? ==> r.value == Decode(store.kind, store.dirs[status][filename]).value
      ensures r.Success? ==> KindOf(r.value) == store.kind
    {
      if status !in store.dirs || filename !in store.dirs[status] {
        return Failure(NoSuchFile);
      }
      var d := Decode(store.kind, store.dirs[status][filename]);
      if d.Failure? {
        return Failure(BadContent);
      }
      return Success(d.value);
    }
  }
}
