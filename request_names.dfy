/**
 * Request identity for the migration / retrieval queues: the six request
 * statuses, the per-status directory names of each manager, and the request
 * file name `user-id-YYYY-MM-DD` with its parser and formatter.
 */
module RequestNames {
  import opened Wrappers
  import opened Text

  // ---------------------------------------------------------------------
  // statuses and directory tables

  datatype Status = Creating | NotStarted | Doing | Done | Failed | Withdrawn

  /** `all_statuses`, in declaration order. */
  const AllStatuses: seq<Status> := [Creating, NotStarted, Doing, Done, Failed, Withdrawn]

  /** The integer value of each status. */
  function StatusValue(s: Status): (v: nat)
    ensures v < 6 && AllStatuses[v] == s
  {
    match s
    case Creating => 0
    case NotStarted => 1
    case Doing => 2
    case Done => 3
    case Failed => 4
    case Withdrawn => 5
  }

  lemma AllStatusesComplete(s: Status)
    ensures s in AllStatuses
  {
    assert AllStatuses[StatusValue(s)] == s;
  }

  /** The two request managers. */
  datatype Kind = Migration | Retrieval

  /** `dir_lookup` of each manager. */
  function DirName(k: Kind, s: Status): string
  {
    match k
    case Migration => (
      match s
      case Creating => ".creating_migrate"
      case NotStarted => "to-migrate"
      case Doing => "migrating"
      case Done => "migrated"
      case Failed => "failed-migrations"
      case Withdrawn => "withdrawn-migrations")
    case Retrieval => (
      match s
      case Creating => ".creating_retrieve"
      case NotStarted => "to-retrieve"
      case Doing => "retrieving"
      case Done => "retrieved"
      case Failed => "failed-retrievals"
      case Withdrawn => "withdrawn-retrievals")
  }

  /** `last_id_file` of each manager. */
  function LastIdFile(k: Kind): string
  {
    match k
    case Migration => ".last_migration_id"
    case Retrieval => ".last_retrieval_id"
  }

  /**
   * Each manager gives the six statuses six different directories, none of
   * them the counter file, and the two managers share no directory.
   */
  lemma DirNamesDistinct(k: Kind, k': Kind, s: Status, s': Status)
    ensures DirName(k, s) == DirName(k', s') <==> k == k' && s == s'
    ensures DirName(k, s) != LastIdFile(k')
  {
  }

  // ---------------------------------------------------------------------
  // dates, with the calendar checks `datetime.date` makes

  datatype Date = Date(year: nat, month: nat, day: nat)

  predicate IsLeap(y: nat)
  {
    y % 4 == 0 && (y % 100 != 0 || y % 400 == 0)
  }

  function DaysInMonth(y: nat, m: nat): nat
    requires 1 <= m <= 12
  {
    if m == 2 then (if IsLeap(y) then 29 else 28)
    else if m == 4 || m == 6 || m == 9 || m == 11 then 30
    else 31
  }

  /** A date `datetime.date(year, month, day)` accepts. */
  predicate ValidDate(d: Date)
  {
    1 <= d.year <= 9999 && 1 <= d.month <= 12 && 1 <= d.day <= DaysInMonth(d.year, d.month)
  }

  // ---------------------------------------------------------------------
  // request file names

  datatype FileFields = FileFields(user: string, reqid: nat, date: Date)

  /** `BadFileName` when the name does not fit the pattern; `ValueError` from `datetime.date` for an impossible date. */
  datatype ParseError = BadFileName | BadDate

  /**
   * The shape `[^-]+-[0-9]+-[0-9]{4}-[0-9]{2}-[0-9]{2}` asks of the five
   * pieces between dashes.
   */
  predicate FieldShape(u: string, i: string, y: string, m: string, d: string)
  {
    u != "" && '-' !in u && |i| >= 1 && AllDigits(i)
    && |y| == 4 && AllDigits(y) && |m| == 2 && AllDigits(m) && |d| == 2 && AllDigits(d)
  }

  /** A name made of five pieces joined by dashes. */
  function Assemble(u: string, i: string, y: string, m: string, d: string): string
  {
    u + "-" + (i + "-" + (y + "-" + (m + "-" + d)))
  }

  /**
   * The names the file-name pattern matches under `re.match`: from the
   * start, and up to the end or up to one final newline, since `$` matches
   * at either place.
   */
  ghost predicate MatchesPattern(s: string)
  {
    exists u, i, y, m, d :: FieldShape(u, i, y, m, d) && (s == Assemble(u, i, y, m, d) || s == Assemble(u, i, y, m, d) + "\n")
  }

  /** A piece without one final newline. */
  function Chomp(s: string): string
  {
    if |s| > 0 && s[|s| - 1] == '\n' then s[..|s| - 1] else s
  }

  /**
   * `parse_filename`. The user part holds no dash, so the pattern matches
   * exactly when splitting on `-` gives five pieces of the right shapes,
   * the last one less one final newline, which `$` lets through.
   */
  function ParseFilename(s: string): (r: Result<FileFields, ParseError>)
    ensures r.Success? ==> ValidDate(r.value.date) && r.value.user != "" && '-' !in r.value.user
  {
    var p := Split(s, '-');
    if |p| == 5 && FieldShape(p[0], p[1], p[2], p[3], Chomp(p[4])) then
      var date := Date(DigitsValue(p[2]), DigitsValue(p[3]), DigitsValue(Chomp(p[4])));
      if ValidDate(date) then Success(FileFields(p[0], DigitsValue(p[1]), date))
      else Failure(BadDate)
    else Failure(BadFileName)
  }

  /** `make_filename(user, reqid, date)`: id in decimal, year in four digits, month and day in two. */
  function MakeFilename(user: string, reqid: nat, date: Date): string
  {
    Assemble(user, NatToString(reqid), ZeroPad(date.year, 4), ZeroPad(date.month, 2), ZeroPad(date.day, 2))
  }

  lemma DigitsNoDash(s: string)
    requires AllDigits(s)
    ensures '-' !in s
  {
  }

  lemma SplitAssembled(u: string, i: string, y: string, m: string, d: string)
    requires '-' !in u && '-' !in i && '-' !in y && '-' !in m && '-' !in d
    ensures Split(Assemble(u, i, y, m, d), '-') == [u, i, y, m, d]
  {
    SplitNoSep(d, '-');
    SplitAfterPiece(m, '-', d);
    SplitAfterPiece(y, '-', m + "-" + d);
    SplitAfterPiece(i, '-', y + "-" + (m + "-" + d));
    SplitAfterPiece(u, '-', i + "-" + (y + "-" + (m + "-" + d)));
  }

  /** Five pieces without dashes are the pieces of their assembled name. */
  lemma AssembleSplit(s: string)
    requires |Split(s, '-')| == 5
    ensures var p := Split(s, '-'); s == Assemble(p[0], p[1], p[2], p[3], p[4])
  {
    var p := Split(s, '-');
    var q := [p[0], p[1], p[2], p[3], p[4]];
    assert p == q;
    assert Join(q, '-') == Assemble(p[0], p[1], p[2], p[3], p[4]) by {
      assert Join([p[4]], '-') == p[4];
      assert Join([p[3], p[4]], '-') == p[3] + "-" + p[4] by {
        assert [p[3], p[4]][1..] == [p[4]];
      }
      assert Join([p[2], p[3], p[4]], '-') == p[2] + "-" + (p[3] + "-" + p[4]) by {
        assert [p[2], p[3], p[4]][1..] == [p[3], p[4]];
      }
      assert Join([p[1], p[2], p[3], p[4]], '-') == p[1] + "-" + (p[2] + "-" + (p[3] + "-" + p[4])) by {
        assert [p[1], p[2], p[3], p[4]][1..] == [p[2], p[3], p[4]];
      }
      assert q[1..] == [p[1], p[2], p[3], p[4]];
    }
  }

  /** A piece ending in a digit has no newline to drop; one newline after any piece is dropped. */
  lemma ChompDigit(d: string)
    ensures Chomp(d + "\n") == d
    ensures |d| > 0 && IsDigit(d[|d| - 1]) ==> Chomp(d) == d
  {
    assert (d + "\n")[..|d|] == d;
  }

  /** A newline after a name is a newline after its last piece. */
  lemma AssembleNewline(u: string, i: string, y: string, m: string, d: string)
    ensures Assemble(u, i, y, m, d) + "\n" == Assemble(u, i, y, m, d + "\n")
  {
  }

  /** Whether a string ends in a newline is decided by its last non-empty part. */
  lemma ChompAppend(a: string, b: string)
    requires |b| > 0
    ensures Chomp(a + b) == a + b <==> Chomp(b) == b
  {
    assert (a + b)[|a + b| - 1] == b[|b| - 1];
  }

  /** The last character of a padded number is a digit. */
  lemma ZeroPadLast(n: nat, w: nat)
    ensures var z := ZeroPad(n, w); |z| > 0 && IsDigit(z[|z| - 1])
  {
    var s := NatToString(n);
    assert IsDigit(s[|s| - 1]);
    if |s| < w {
      var z := Repeat('0', w - |s|) + s;
      assert z[|z| - 1] == s[|s| - 1];
    }
  }

  /** Five well-shaped pieces, the last one less a final newline, make a name the pattern matches. */
  lemma PiecesMatch(s: string)
    requires var p := Split(s, '-'); |p| == 5 && FieldShape(p[0], p[1], p[2], p[3], Chomp(p[4]))
    ensures MatchesPattern(s)
  {
    var p := Split(s, '-');
    var d := Chomp(p[4]);
    AssembleSplit(s);
    if |p[4]| > 0 && p[4][|p[4]| - 1] == '\n' {
      assert p[4] == d + "\n";
      AssembleNewline(p[0], p[1], p[2], p[3], d);
    }
    assert s == Assemble(p[0], p[1], p[2], p[3], d) || s == Assemble(p[0], p[1], p[2], p[3], d) + "\n";
  }

  /** A name the pattern matches splits into the matched pieces, the last one perhaps with the newline. */
  lemma MatchPieces(s: string, u: string, i: string, y: string, m: string, d: string)
    requires FieldShape(u, i, y, m, d) && (s == Assemble(u, i, y, m, d) || s == Assemble(u, i, y, m, d) + "\n")
    ensures var p := Split(s, '-'); |p| == 5 && p[..4] == [u, i, y, m] && Chomp(p[4]) == d
  {
    ChompDigit(d);
    DigitsNoDash(i);
    DigitsNoDash(y);
    DigitsNoDash(m);
    DigitsNoDash(d);
    if s == Assemble(u, i, y, m, d) {
      SplitAssembled(u, i, y, m, d);
    } else {
      AssembleNewline(u, i, y, m, d);
      SplitAssembled(u, i, y, m, d + "\n");
    }
  }

  /** `parse_filename` raises `BadFileName` exactly for the names the pattern does not match. */
  lemma ParseAcceptsPattern(s: string)
    ensures ParseFilename(s) != Failure(BadFileName) <==> MatchesPattern(s)
  {
    var p := Split(s, '-');
    if |p| == 5 && FieldShape(p[0], p[1], p[2], p[3], Chomp(p[4])) {
      PiecesMatch(s);
    } else if MatchesPattern(s) {
      var u, i, y, m, d :| FieldShape(u, i, y, m, d) && (s == Assemble(u, i, y, m, d) || s == Assemble(u, i, y, m, d) + "\n");
      MatchPieces(s, u, i, y, m, d);
      assert false;
    }
  }

  /** A name made from a non-empty, dash-free user, any id and a real date parses back to the same fields. */
  lemma ParseMakeRoundTrip(user: string, reqid: nat, date: Date)
    requires user != "" && '-' !in user
    requires ValidDate(date)
    ensures ParseFilename(MakeFilename(user, reqid, date)) == Success(FileFields(user, reqid, date))
  {
    var i := NatToString(reqid);
    ZeroPadDigits(date.year, 4);
    ZeroPadDigits(date.month, 2);
    ZeroPadDigits(date.day, 2);
    var y, m, d := ZeroPad(date.year, 4), ZeroPad(date.month, 2), ZeroPad(date.day, 2);
    ZeroPadLast(date.day, 2);
    ChompDigit(d);
    DigitsNoDash(i);
    DigitsNoDash(y);
    DigitsNoDash(m);
    DigitsNoDash(d);
    SplitAssembled(user, i, y, m, d);
  }

  /** The number of occurrences of `c` in `s`. */
  function Count(s: string, c: char): nat
  {
    if s == [] then 0 else (if s[0] == c then 1 else 0) + Count(s[1..], c)
  }

  lemma {:induction false} CountAppend(a: string, b: string, c: char)
    ensures Count(a + b, c) == Count(a, c) + Count(b, c)
    decreases |a|
  {
    if a != [] {
      assert (a + b)[0] == a[0];
      assert (a + b)[1..] == a[1..] + b;
      CountAppend(a[1..], b, c);
    } else {
      assert a + b == b;
    }
  }

  /** `s.split(c)` has one more piece than `s` has occurrences of `c`. */
  lemma {:induction false} SplitLength(s: string, c: char)
    ensures |Split(s, c)| == Count(s, c) + 1
    decreases |s|
  {
    if s != [] {
      SplitLength(s[1..], c);
    }
  }

  lemma CountMissing(s: string, c: char)
    requires c !in s
    ensures Count(s, c) == 0
  {
    SplitNoSep(s, c);
    SplitLength(s, c);
  }

  lemma CountAssembled(u: string, i: string, y: string, m: string, d: string)
    ensures Count(Assemble(u, i, y, m, d), '-') >= Count(u, '-') + 4
  {
    CountAppend(m + "-", d, '-');
    CountAppend(m, "-", '-');
    CountAppend(y + "-", m + "-" + d, '-');
    CountAppend(y, "-", '-');
    CountAppend(i + "-", y + "-" + (m + "-" + d), '-');
    CountAppend(i, "-", '-');
    CountAppend(u + "-", i + "-" + (y + "-" + (m + "-" + d)), '-');
    CountAppend(u, "-", '-');
  }

  /** A login name that is empty or holds a dash gives a request file name that cannot be parsed. */
  lemma BadUserUnparsable(user: string, reqid: nat, date: Date)
    requires user == "" || '-' in user
    ensures ParseFilename(MakeFilename(user, reqid, date)) == Failure(BadFileName)
  {
    var i, y, m, d := NatToString(reqid), ZeroPad(date.year, 4), ZeroPad(date.month, 2), ZeroPad(date.day, 2);
    var s := MakeFilename(user, reqid, date);
    if '-' in user {
      var k :| 0 <= k < |user| && user[k] == '-';
      assert user == user[..k] + user[k..];
      CountAppend(user[..k], user[k..], '-');
      assert user[k..][0] == '-';
      CountAssembled(user, i, y, m, d);
      SplitLength(s, '-');
    } else {
      var t := i + "-" + (y + "-" + (m + "-" + d));
      assert s == "" + "-" + t;
      SplitAfterPiece("", '-', t);
    }
  }

  /** A fixed-width digit field is reproduced by `'{:0w}'.format(int(field))`. */
  lemma {:induction false} PadRoundTrip(s: string)
    requires |s| >= 1 && AllDigits(s)
    ensures ZeroPad(DigitsValue(s), |s|) == s
    decreases |s|
  {
    if s[0] != '0' || |s| == 1 {
      CanonicalRoundTrip(s);
    } else {
      var t := s[1..];
      assert s == "0" + t;
      PrependZeroValue(t);
      PadRoundTrip(t);
      var v := DigitsValue(t);
      var n := NatToString(v);
      assert |n| <= |t|;
      if |n| < |t| {
        assert Repeat('0', |s| - |n|) == "0" + Repeat('0', |t| - |n|);
      } else {
        assert ZeroPad(v, |t|) == n;
        assert Repeat('0', |s| - |n|) == "0";
      }
    }
  }

  /** For a name without a final newline, formatting its parsed fields gives it back iff its id has no leading zero. */
  lemma MakeParsePlain(s: string)
    requires ParseFilename(s).Success?
    requires var p := Split(s, '-'); Chomp(p[4]) == p[4]
    ensures var f := ParseFilename(s).value;
      MakeFilename(f.user, f.reqid, f.date) == s <==> Canonical(Split(s, '-')[1])
  {
    var p := Split(s, '-');
    var f := ParseFilename(s).value;
    PadRoundTrip(p[2]);
    PadRoundTrip(p[3]);
    PadRoundTrip(p[4]);
    var i := NatToString(f.reqid);
    AssembleSplit(s);
    if Canonical(p[1]) {
      CanonicalRoundTrip(p[1]);
    } else {
      DigitsNoDash(i);
      DigitsNoDash(p[2]);
      DigitsNoDash(p[3]);
      DigitsNoDash(p[4]);
      SplitAssembled(f.user, i, p[2], p[3], p[4]);
      assert Split(MakeFilename(f.user, f.reqid, f.date), '-')[1] == i;
    }
  }

  /** A formatted name ends in a digit of the day, never in a newline. */
  lemma MakeNoNewline(user: string, reqid: nat, date: Date)
    ensures var s := MakeFilename(user, reqid, date); Chomp(s) == s
  {
    var d := ZeroPad(date.day, 2);
    ZeroPadLast(date.day, 2);
    ChompDigit(d);
    var pre := user + "-" + (NatToString(reqid) + "-" + (ZeroPad(date.year, 4) + "-" + (ZeroPad(date.month, 2) + "-")));
    ChompAppend(pre, d);
    assert MakeFilename(user, reqid, date) == pre + d;
  }

  /** A name ends in a newline exactly when its last piece does. */
  lemma ChompLastPiece(s: string)
    requires var p := Split(s, '-'); |p| == 5 && |p[4]| > 0
    ensures var p := Split(s, '-'); Chomp(s) == s <==> Chomp(p[4]) == p[4]
  {
    var p := Split(s, '-');
    AssembleSplit(s);
    var pre := p[0] + "-" + (p[1] + "-" + (p[2] + "-" + (p[3] + "-")));
    ChompAppend(pre, p[4]);
    assert s == pre + p[4];
  }

  /**
   * Formatting the parsed fields of a name gives the name back exactly when
   * the name has no final newline and its id has no leading zero; `0007`
   * comes back as `7`.
   */
  lemma MakeParseRoundTrip(s: string)
    requires ParseFilename(s).Success?
    ensures var f := ParseFilename(s).value;
      MakeFilename(f.user, f.reqid, f.date) == s <==> Chomp(s) == s && Canonical(Split(s, '-')[1])
  {
    var p := Split(s, '-');
    var f := ParseFilename(s).value;
    ChompLastPiece(s);
    MakeNoNewline(f.user, f.reqid, f.date);
    if Chomp(p[4]) == p[4] {
      MakeParsePlain(s);
    }
  }

  /** `$` lets one newline follow the name: such a name parses as the name without it. */
  lemma ParseTrailingNewline(s: string)
    requires |s| == 0 || s[|s| - 1] != '\n'
    ensures ParseFilename(s + "\n") == ParseFilename(s)
  {
    var p := Split(s, '-');
    SplitLength(s, '-');
    SplitLength(s + "\n", '-');
    CountAppend(s, "\n", '-');
    CountMissing("\n", '-');
    if |p| == 5 {
      AssembleSplit(s);
      AssembleNewline(p[0], p[1], p[2], p[3], p[4]);
      SplitAssembled(p[0], p[1], p[2], p[3], p[4] + "\n");
      ChompDigit(p[4]);
      if |p[4]| > 0 {
        ChompAppend(p[0] + "-" + (p[1] + "-" + (p[2] + "-" + (p[3] + "-"))), p[4]);
        assert s == p[0] + "-" + (p[1] + "-" + (p[2] + "-" + (p[3] + "-"))) + p[4];
      }
    }
  }
}
