/**
 * What the two dataset status tools (`mip-dataset-status` and
 * `cmip6-dataset-status`) share: the check that exactly one of dataset
 * specifiers or `--status` is given, turning a specifier into a dataset
 * identifier, the query sent to the publication system and its response,
 * and `_ResultsWriter`, which numbers the results and lays them out as JSON.
 *
 * The query API is a function from query to response; the chain,
 * configuration and requester fields, fixed for one run, are left out.
 */
module StatusCommon {
  import opened Wrappers
  import opened Text
  import DrsConfigs
  import DatasetDrs

  // ---------------------------------------------------------------------
  // arguments

  /** The values `--status` may take. */
  const Statuses: seq<string> := ["not_started", "in_progress", "completed", "failed", "ALL"]

  datatype ArgsError = InvalidChoice(status: string) | NeitherGiven | BothGiven

  /** Python's truth value of the `--status` argument. */
  predicate StatusGiven(status: Option<string>)
  {
    status.Some? && status.value != ""
  }

  /**
   * The checks of `_parse_args` after parsing: `--status` must be one of
   * the choices, and exactly one of specifiers and status is given.
   */
  function CheckArgs(specs: seq<string>, status: Option<string>): (r: Outcome<ArgsError>)
    ensures r.Pass? <==> (status.Some? ==> status.value in Statuses) && (specs != [] <==> !StatusGiven(status))
    ensures r == Fail(NeitherGiven) <==> (status.Some? ==> status.value in Statuses) && specs == [] && !StatusGiven(status)
    ensures r == Fail(BothGiven) <==> (status.Some? ==> status.value in Statuses) && specs != [] && StatusGiven(status)
    ensures status.Some? && status.value !in Statuses ==> r == Fail(InvalidChoice(status.value))
  {
    if status.Some? && status.value !in Statuses then Fail(InvalidChoice(status.value))
    else if specs == [] && !StatusGiven(status) then Fail(NeitherGiven)
    else if specs != [] && StatusGiven(status) then Fail(BothGiven)
    else Pass
  }

  /** Every accepted `--status` choice is a non-empty string, so it counts as given. */
  lemma ChoicesAreGiven(status: string)
    requires status in Statuses
    ensures StatusGiven(Some(status))
  {
  }

  // ---------------------------------------------------------------------
  // dataset specifiers

  datatype SpecError = NotMappable(spec: string) | Wildcard(spec: string) | NotADatasetId(spec: string)

  /**
   * `_get_dataset_id`: a specifier holding `/` is a directory and is mapped
   * to its identifier; otherwise one holding `*` is refused; otherwise it
   * must itself be a plausible identifier.
   */
  function GetDatasetId(c: DrsConfigs.DrsConfig, spec: string): (r: Result<string, SpecError>)
    requires DrsConfigs.WellFormed(c)
  {
    if '/' in spec then
      match DatasetDrs.DirToDatasetId(c, spec)
      case None => Failure(NotMappable(spec))
      case Some(datasetId) => Success(datasetId)
    else if '*' in spec then Failure(Wildcard(spec))
    else if DatasetDrs.PlausibleDatasetId(c, spec) then Success(spec)
    else Failure(NotADatasetId(spec))
  }

  /**
   * The four cases of the classification, in their order: the result is
   * the directory's identifier when there is one; a wildcard is refused
   * only outside a directory; a plain specifier is returned unchanged
   * exactly when it is plausible.
   */
  lemma GetDatasetIdCases(c: DrsConfigs.DrsConfig, spec: string)
    requires DrsConfigs.WellFormed(c)
    ensures var r := GetDatasetId(c, spec);
      && ('/' in spec ==> (r.Success? <==> DatasetDrs.DirToDatasetId(c, spec).Some?)
                          && (r.Success? ==> Some(r.value) == DatasetDrs.DirToDatasetId(c, spec))
                          && (r.Failure? ==> r.error == NotMappable(spec)))
      && ('/' !in spec && '*' in spec ==> r == Failure(Wildcard(spec)))
      && ('/' !in spec && '*' !in spec ==> (r.Success? <==> DatasetDrs.PlausibleDatasetId(c, spec))
                                           && (r.Success? ==> r.value == spec)
                                           && (r.Failure? ==> r.error == NotADatasetId(spec)))
  {
  }

  /**
   * An identifier returned for a plain specifier is plausible; one returned
   * for a directory is the join of plausible facets, and is a plausible
   * identifier itself when no facet of the directory holds a dot.
   */
  lemma GetDatasetIdPlausible(c: DrsConfigs.DrsConfig, spec: string)
    requires DrsConfigs.WellFormed(c)
    requires GetDatasetId(c, spec).Success?
    requires '/' in spec ==> DatasetDrs.NoDots(DatasetDrs.DirFacets(c, spec))
    ensures DatasetDrs.PlausibleDatasetId(c, GetDatasetId(c, spec).value)
  {
    if '/' in spec {
      DatasetDrs.PlausibleIdOfFacets(c, DatasetDrs.DirFacets(c, spec));
    }
  }

  /** A list comprehension whose element expression may raise: the first failure in order decides. */
  function AllSucceed<T, E>(rs: seq<Result<T, E>>): Result<seq<T>, E>
    decreases |rs|
  {
    if rs == [] then Success([])
    else
      match rs[0]
      case Failure(e) => Failure(e)
      case Success(v) =>
        match AllSucceed(rs[1..])
        case Failure(e) => Failure(e)
        case Success(rest) => Success([v] + rest)
  }

  /**
   * The list is given exactly when every element succeeds, one value per
   * element in order; otherwise the error is that of the first failure.
   */
  lemma {:induction false} AllSucceedSpec<T, E>(rs: seq<Result<T, E>>)
    ensures var r := AllSucceed(rs);
      && (r.Success? <==> forall i :: 0 <= i < |rs| ==> rs[i].Success?)
      && (r.Success? ==> |r.value| == |rs| && forall i :: 0 <= i < |rs| ==> r.value[i] == rs[i].value)
      && (r.Failure? ==> exists k :: 0 <= k < |rs| && rs[k] == Failure(r.error)
                                     && forall i :: 0 <= i < k ==> rs[i].Success?)
    decreases |rs|
  {
    if rs != [] {
      var tail := rs[1..];
      assert forall i :: 0 <= i < |tail| ==> tail[i] == rs[i + 1];
      AllSucceedSpec(tail);
      var r := AllSucceed(rs);
      if rs[0].Success? && AllSucceed(tail).Failure? {
        var k :| 0 <= k < |tail| && tail[k] == Failure(r.error) && forall i :: 0 <= i < k ==> tail[i].Success?;
        assert rs[k + 1] == Failure(r.error);
        assert forall i :: 0 <= i < k + 1 ==> rs[i].Success? by {
          forall i | 0 <= i < k + 1 ensures rs[i].Success? {
            if i > 0 {
              assert rs[i] == tail[i - 1];
            }
          }
        }
      }
      if r.Success? {
        forall i | 0 <= i < |rs| ensures rs[i].Success? && r.value[i] == rs[i].value {
          if i > 0 {
            assert rs[i] == tail[i - 1];
          }
        }
      }
    }
  }

  /** `_get_dataset_ids`: every specifier in order; the first that fails decides the error. */
  function GetDatasetIds(c: DrsConfigs.DrsConfig, specs: seq<string>): (r: Result<seq<string>, SpecError>)
    requires DrsConfigs.WellFormed(c)
  {
    AllSucceed(seq(|specs|, i requires 0 <= i < |specs| => GetDatasetId(c, specs[i])))
  }

  /**
   * The list of identifiers is given exactly when every specifier maps to
   * one, in order and one for one; otherwise the error is that of the
   * first specifier that does not.
   */
  lemma GetDatasetIdsSpec(c: DrsConfigs.DrsConfig, specs: seq<string>)
    requires DrsConfigs.WellFormed(c)
    ensures var r := GetDatasetIds(c, specs);
      && (r.Success? <==> forall i :: 0 <= i < |specs| ==> GetDatasetId(c, specs[i]).Success?)
      && (r.Success? ==> |r.value| == |specs|
                         && forall i :: 0 <= i < |specs| ==> r.value[i] == GetDatasetId(c, specs[i]).value)
      && (r.Failure? ==> exists k :: 0 <= k < |specs| && GetDatasetId(c, specs[k]) == Failure(r.error)
                                     && forall i :: 0 <= i < k ==> GetDatasetId(c, specs[i]).Success?)
  {
    var rs := seq(|specs|, i requires 0 <= i < |specs| => GetDatasetId(c, specs[i]));
    assert forall i :: 0 <= i < |specs| ==> rs[i] == GetDatasetId(c, specs[i]);
    AllSucceedSpec(rs);
    var r := AllSucceed(rs);
    if r.Failure? {
      var k :| 0 <= k < |rs| && rs[k] == Failure(r.error) && forall i :: 0 <= i < k ==> rs[i].Success?;
      assert GetDatasetId(c, specs[k]) == Failure(r.error);
    }
  }

  // ---------------------------------------------------------------------
  // the query API

  /** The query fields that vary: `dataset_id`, `status`, `cursor` and `max_items`. */
  datatype Query = Query(datasetId: string, status: Option<string>, cursor: Option<string>, maxItems: Option<nat>)

  /** A dataset in a response: its `dataset_id` and `status`. */
  type Entry = (string, string)

  /** The fields of a response: `datasets`, `num_found`, and `cursor` when there is another page. */
  datatype Response = Response(datasets: seq<Entry>, numFound: int, cursor: Option<string>)

  type Api = Query -> Response

  /** The query for every dataset of the requester with a given status; `ALL` sends no status. */
  function StatusQuery(status: string): (q: Query)
    ensures q.datasetId == "**" && q.cursor.None? && q.maxItems.None?
    ensures q.status.None? <==> status == "ALL"
    ensures q.status.Some? ==> q.status.value == status
  {
    Query("**", if status == "ALL" then None else Some(status), None, None)
  }

  // ---------------------------------------------------------------------
  // results

  datatype Row = Row(count: nat, datasetId: string, status: string)

  /** `_get_rows` from position `start`: the results numbered from `start + 1`. */
  function RowsFrom(results: seq<Entry>, start: nat): (rows: seq<Row>)
    requires start <= |results|
    ensures |rows| == |results| - start
    ensures forall i :: 0 <= i < |rows| ==>
      rows[i] == Row(start + i + 1, results[start + i].0, results[start + i].1)
    decreases |results| - start
  {
    if start == |results| then []
    else [Row(start + 1, results[start].0, results[start].1)] + RowsFrom(results, start + 1)
  }

  /** `_get_rows`: the results in order, numbered from 1. */
  function Rows(results: seq<Entry>): (rows: seq<Row>)
    ensures |rows| == |results|
    ensures forall i :: 0 <= i < |rows| ==> rows[i] == Row(i + 1, results[i].0, results[i].1)
  {
    RowsFrom(results, 0)
  }

  /** Row numbers run from 1 without gaps, so they count the rows before and including each. */
  lemma RowsNumbered(results: seq<Entry>, i: nat, j: nat)
    requires i < j < |results|
    ensures Rows(results)[j].count - Rows(results)[i].count == j - i
    ensures Rows(results)[0].count == 1 && Rows(results)[|results| - 1].count == |results|
  {
  }

  /** The table headings, `_headers`. */
  const Headers: seq<string> := ["Count", "Dataset ID", "Status"]

  function LowerChar(c: char): char
  {
    if 'A' <= c <= 'Z' then (c as int - 'A' as int + 'a' as int) as char else c
  }

  /** `s.lower().replace(' ', '_')` for ASCII text. */
  function JsonKey(s: string): string
  {
    seq(|s|, i requires 0 <= i < |s| => if s[i] == ' ' then '_' else LowerChar(s[i]))
  }

  /** The keys `write_json` derives from the headings. */
  const JsonKeys: seq<string> := ["count", "dataset_id", "status"]

  /** The JSON keys are `count`, `dataset_id` and `status`. */
  lemma JsonKeysOfHeaders()
    ensures JsonKey(Headers[0]) == JsonKeys[0] && JsonKey(Headers[1]) == JsonKeys[1] && JsonKey(Headers[2]) == JsonKeys[2]
  {
    CountKey();
    DatasetIdKey();
    StatusKey();
  }

  lemma CountKey()
    ensures JsonKey("Count") == "count"
  {
    var k := JsonKey("Count");
    assert k[0] == 'c';
  }

  lemma DatasetIdKey()
    ensures JsonKey("Dataset ID") == "dataset_id"
  {
    var k := JsonKey("Dataset ID");
    assert k[0] == 'd' && k[7] == '_' && k[8] == 'i' && k[9] == 'd';
  }

  lemma StatusKey()
    ensures JsonKey("Status") == "status"
  {
    var k := JsonKey("Status");
    assert k[0] == 's';
  }

  datatype JsonField = Num(n: int) | Str(s: string)

  /** The JSON document `write_json` writes. */
  datatype JsonDoc = JsonDoc(datasets: seq<map<string, JsonField>>, numFound: nat)

  /** `dict(zip(headers, row))`: the number under `count`, identifier and status under their keys. */
  function RowObject(row: Row): (o: map<string, JsonField>)
    ensures o.Keys == {"count", "dataset_id", "status"}
    ensures o["count"] == Num(row.count) && o["dataset_id"] == Str(row.datasetId) && o["status"] == Str(row.status)
  {
    JsonKeysOfHeaders();
    map[JsonKey(Headers[0]) := Num(row.count), JsonKey(Headers[1]) := Str(row.datasetId),
        JsonKey(Headers[2]) := Str(row.status)]
  }

  datatype WriteError = NotOverwriting(path: string)

  /** Where output goes: standard output for `-`, otherwise the named file. */
  datatype Target = StandardOutput | FileAt(path: string)

  /** `_ResultsWriter`: the results and whether an existing output file may be overwritten. */
  class ResultsWriter {
    var results: seq<Entry>
    var overwrite: bool

    constructor(results: seq<Entry>)
      ensures this.results == results && !overwrite
    {
      this.results := results;
      overwrite := false;
    }

    /** `allow_overwrite`. */
    method AllowOverwrite(val: bool)
      modifies this
      ensures overwrite == val && results == old(results)
    {
      overwrite := val;
    }

    /**
     * `_get_write_fh`: `-` is standard output; an existing file is refused
     * unless overwriting is allowed. `present` is what `os.path.exists` reports.
     */
    function WriteTarget(path: string, present: bool): (r: Result<Target, WriteError>)
      reads this
      ensures r.Failure? <==> path != "-" && present && !overwrite
      ensures r.Failure? ==> r.error == NotOverwriting(path)
      ensures r.Success? ==> r.value == if path == "-" then StandardOutput else FileAt(path)
    {
      if path == "-" then Success(StandardOutput)
      else if present && !overwrite then Failure(NotOverwriting(path))
      else Success(FileAt(path))
    }

    /**
     * The document of `write_json`: one object per row, in order, and
     * `num_found` the number of them.
     */
    method JsonDocument() returns (doc: JsonDoc)
      ensures |doc.datasets| == doc.numFound == |results|
      ensures forall i :: 0 <= i < |results| ==>
        doc.datasets[i] == RowObject(Row(i + 1, results[i].0, results[i].1))
    {
      var rows := Rows(results);
      var datasets: seq<map<string, JsonField>> := [];
      for i := 0 to |rows|
        invariant |datasets| == i
        invariant forall k :: 0 <= k < i ==> datasets[k] == RowObject(rows[k])
      {
        datasets := datasets + [RowObject(rows[i])];
      }
      doc := JsonDoc(datasets, |datasets|);
    }

    /** `write_json`: the document and where it is written, or the refusal to overwrite. */
    method WriteJson(path: string, present: bool) returns (r: Result<(Target, JsonDoc), WriteError>)
      ensures r.Failure? <==> WriteTarget(path, present).Failure?
      ensures r.Failure? ==> r.error == NotOverwriting(path)
      ensures r.Success? ==> r.value.0 == WriteTarget(path, present).value
      ensures r.Success? ==> |r.value.1.datasets| == r.value.1.numFound == |results|
      ensures r.Success? ==> forall i :: 0 <= i < |results| ==>
        r.value.1.datasets[i] == RowObject(Row(i + 1, results[i].0, results[i].1))
    {
      var doc := JsonDocument();
      var target := WriteTarget(path, present);
      if target.Failure? {
        return Failure(target.error);
      }
      return Success((target.value, doc));
    }
  }
}
