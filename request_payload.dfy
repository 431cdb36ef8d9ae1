/**
 * The content of a request file: one line (the path to migrate) or one or
 * two lines (the original path and, optionally, where to restore it).
 */
module RequestPayload {
  import opened Wrappers
  import opened Text
  import opened RequestNames

  /** A line as it survives decoding: not empty, no newline, no white space at either end. */
  predicate IsLine(s: string)
  {
    |s| > 0 && '\n' !in s && Stripped(s)
  }

  predicate AllLines(ls: seq<string>)
  {
    forall i :: 0 <= i < |ls| ==> IsLine(ls[i])
  }

  /** Strip every line and keep the non-empty ones. */
  function KeepNonBlank(lines: seq<string>): (r: seq<string>)
    requires forall i :: 0 <= i < |lines| ==> '\n' !in lines[i]
    ensures AllLines(r) && |r| <= |lines|
    decreases |lines|
  {
    if lines == [] then []
    else
      var l := Strip(lines[0]);
      (if |l| == 0 then [] else [l]) + KeepNonBlank(lines[1..])
  }

  /** `_get_non_empty_lines(content)`. */
  function NonEmptyLines(content: string): (r: seq<string>)
    ensures AllLines(r)
  {
    KeepNonBlank(Split(content, '\n'))
  }

  /** Each line followed by a newline. */
  function Lines(ls: seq<string>): string
  {
    if ls == [] then "" else ls[0] + "\n" + Lines(ls[1..])
  }

  lemma {:induction false} SplitLines(ls: seq<string>)
    requires AllLines(ls)
    ensures Split(Lines(ls), '\n') == ls + [""]
    decreases |ls|
  {
    if ls == [] {
      SplitNoSep("", '\n');
    } else {
      SplitLines(ls[1..]);
      SplitAfterPiece(ls[0], '\n', Lines(ls[1..]));
      assert [ls[0]] + (ls[1..] + [""]) == ls + [""];
    }
  }

  lemma {:induction false} KeepLines(ls: seq<string>)
    requires AllLines(ls)
    ensures KeepNonBlank(ls + [""]) == ls
    decreases |ls|
  {
    var t := ls + [""];
    if ls == [] {
      assert t[1..] == [];
      assert |Strip(t[0])| == 0;
    } else {
      assert t[0] == ls[0] && t[1..] == ls[1..] + [""];
      assert IsLine(ls[0]);
      StripStripped(ls[0]);
      assert KeepNonBlank(t) == [ls[0]] + KeepNonBlank(t[1..]);
      KeepLines(ls[1..]);
      assert [ls[0]] + ls[1..] == ls;
    }
  }

  /** Lines written one per line come back unchanged, blank lines dropped. */
  lemma NonEmptyLinesOfLines(ls: seq<string>)
    requires AllLines(ls)
    ensures NonEmptyLines(Lines(ls)) == ls
  {
    SplitLines(ls);
    KeepLines(ls);
  }

  // ---------------------------------------------------------------------
  // payloads of the two request kinds

  /** `{'path': p}` of a migration, `{'orig_path': o, 'new_path': n}` of a retrieval. */
  datatype Payload = MigratePath(path: string) | RetrievePaths(origPath: string, newPath: Option<string>)

  function KindOf(p: Payload): Kind
  {
    if p.MigratePath? then Migration else Retrieval
  }

  datatype PayloadError = BadFileContent

  /** `_encode`: a retrieve path that is None or empty is not written. */
  function Encode(p: Payload): string
  {
    match p
    case MigratePath(path) => path + "\n"
    case RetrievePaths(orig, newPath) =>
      if newPath.Some? && newPath.value != "" then orig + "\n" + newPath.value + "\n" else orig + "\n"
  }

  /** `_decode` of each kind: a migration needs exactly one non-blank line, a retrieval one or two. */
  function Decode(k: Kind, content: string): (r: Result<Payload, PayloadError>)
    ensures r.Success? ==> KindOf(r.value) == k
    ensures r.Success? && r.value.MigratePath? ==> IsLine(r.value.path)
    ensures r.Success? && r.value.RetrievePaths? ==>
      IsLine(r.value.origPath) && (r.value.newPath.Some? ==> IsLine(r.value.newPath.value))
  {
    var lines := NonEmptyLines(content);
    match k
    case Migration =>
      if |lines| == 1 then Success(MigratePath(lines[0])) else Failure(BadFileContent)
    case Retrieval =>
      if |lines| == 1 then Success(RetrievePaths(lines[0], None))
      else if |lines| == 2 then Success(RetrievePaths(lines[0], Some(lines[1])))
      else Failure(BadFileContent)
  }

  /** A payload whose paths are lines, as decoding would give them; an empty retrieve path counts as none. */
  predicate Encodable(p: Payload)
  {
    match p
    case MigratePath(path) => IsLine(path)
    case RetrievePaths(orig, newPath) =>
      IsLine(orig) && (newPath.Some? ==> newPath.value == "" || IsLine(newPath.value))
  }

  /** What decoding gives for an encodable payload: an empty retrieve path reads back as None. */
  function Normal(p: Payload): Payload
  {
    match p
    case MigratePath(_) => p
    case RetrievePaths(orig, newPath) =>
      if newPath.Some? && newPath.value == "" then RetrievePaths(orig, None) else p
  }

  /** Decoding what `_encode` wrote gives the payload back. */
  lemma DecodeEncode(p: Payload)
    requires Encodable(p)
    ensures Decode(KindOf(p), Encode(p)) == Success(Normal(p))
  {
    match p
    case MigratePath(path) =>
      assert Encode(p) == Lines([path]);
      NonEmptyLinesOfLines([path]);
    case RetrievePaths(orig, newPath) =>
      if newPath.Some? && newPath.value != "" {
        assert Encode(p) == Lines([orig, newPath.value]) by {
          assert [orig, newPath.value][1..] == [newPath.value];
          assert Lines([newPath.value]) == newPath.value + "\n";
        }
        NonEmptyLinesOfLines([orig, newPath.value]);
      } else {
        assert Encode(p) == Lines([orig]);
        NonEmptyLinesOfLines([orig]);
      }
  }

  /**
   * For content made of lines, a migration decodes exactly when there is one
   * line and a retrieval exactly when there are one or two.
   */
  lemma DecodeLineCount(ls: seq<string>)
    requires AllLines(ls)
    ensures Decode(Migration, Lines(ls)).Success? <==> |ls| == 1
    ensures Decode(Retrieval, Lines(ls)).Success? <==> 1 <= |ls| <= 2
  {
    NonEmptyLinesOfLines(ls);
  }
}
