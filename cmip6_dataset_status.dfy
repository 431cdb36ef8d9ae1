/**
 * `CMIP6StatusChecker`: the publication status of CMIP6 datasets, asked
 * for one identifier at a time, or for every dataset with a status in a
 * single query.
 */
module Cmip6DatasetStatus {
  import opened Wrappers
  import opened DrsConfigs
  import opened StatusCommon
  import Cmip6Drs
  import DatasetDrs
  import MipDatasetStatus

  /** What `run` puts in place of a missing status. */
  const Unknown: string := "UNKNOWN"

  /** `fields['datasets'][0]` on an empty list: the `IndexError`. */
  datatype StatusError = NoDatasets(datasetId: string)

  /** The query for one identifier. */
  function IdQuery(datasetId: string): (q: Query)
    ensures q.datasetId == datasetId && q.status.None? && q.cursor.None? && q.maxItems.None?
  {
    Query(datasetId, None, None, None)
  }

  /**
   * `_get_dataset_status` given the response: no status unless exactly one
   * dataset was found, and then the status of the first one listed.
   */
  function DatasetStatus(datasetId: string, resp: Response): (r: Result<Option<string>, StatusError>)
    ensures resp.numFound != 1 ==> r == Success(None)
    ensures resp.numFound == 1 && resp.datasets != [] ==> r == Success(Some(resp.datasets[0].1))
    ensures resp.numFound == 1 && resp.datasets == [] ==> r == Failure(NoDatasets(datasetId))
  {
    if resp.numFound != 1 then Success(None)
    else if resp.datasets == [] then Failure(NoDatasets(datasetId))
    else Success(Some(resp.datasets[0].1))
  }

  /** `status or 'UNKNOWN'`: a missing or empty status is reported as `UNKNOWN`, any other as it is. */
  function StatusOrUnknown(status: Option<string>): (s: string)
    ensures s != ""
    ensures status.None? || status.value == "" ==> s == Unknown
    ensures status.Some? && status.value != "" ==> s == status.value
  {
    if status.None? || status.value == "" then Unknown else status.value
  }

  /** One element of the comprehension of `run`: the identifier with its status, or the failed lookup. */
  function StatusEntry(id: string, api: Api): Result<Entry, StatusError>
  {
    match DatasetStatus(id, api(IdQuery(id)))
    case Failure(e) => Failure(e)
    case Success(status) => Success((id, StatusOrUnknown(status)))
  }

  /**
   * The comprehension of `run` over the identifiers: each identifier with
   * its status, in order; the first failed lookup raises.
   */
  function StatusesFor(ids: seq<string>, api: Api): Result<seq<Entry>, StatusError>
  {
    AllSucceed(seq(|ids|, i requires 0 <= i < |ids| => StatusEntry(ids[i], api)))
  }

  /**
   * The statuses are given exactly when no lookup fails; then they are one
   * pair per identifier, in order, each with the status of its own query
   * or `UNKNOWN`.
   */
  lemma StatusesForSpec(ids: seq<string>, api: Api)
    ensures var r := StatusesFor(ids, api);
      && (r.Success? <==> forall i :: 0 <= i < |ids| ==> DatasetStatus(ids[i], api(IdQuery(ids[i]))).Success?)
      && (r.Success? ==> |r.value| == |ids| && forall i :: 0 <= i < |ids| ==>
            r.value[i] == (ids[i], StatusOrUnknown(DatasetStatus(ids[i], api(IdQuery(ids[i]))).value)))
  {
    var rs := seq(|ids|, i requires 0 <= i < |ids| => StatusEntry(ids[i], api));
    assert forall i :: 0 <= i < |ids| ==> rs[i] == StatusEntry(ids[i], api);
    AllSucceedSpec(rs);
  }

  /** `_get_results_for_status`: every dataset listed in the one response, in order. */
  function ResultsForStatus(status: string, api: Api): seq<Entry>
  {
    api(StatusQuery(status)).datasets
  }

  /**
   * This tool reads only the first page: it agrees with the MIP tool's
   * cursor loop when the response has no cursor, and is a prefix of what
   * that loop collects otherwise.
   */
  lemma FirstPageOfCursorLoop(status: string, api: Api, fuel: nat)
    ensures api(StatusQuery(status)).cursor.None? ==>
      MipDatasetStatus.Collect(StatusQuery(status), api, fuel, []) == Success(ResultsForStatus(status, api))
    ensures MipDatasetStatus.Collect(StatusQuery(status), api, fuel, []).Success? ==>
      ResultsForStatus(status, api) <= MipDatasetStatus.Collect(StatusQuery(status), api, fuel, []).value
  {
    var q := StatusQuery(status);
    assert [] + api(q).datasets == api(q).datasets;
    if MipDatasetStatus.Collect(q, api, fuel, []).Success? {
      MipDatasetStatus.CollectPrefix(q, api, fuel, []);
    }
  }

  datatype RunError = ArgsFailed(args: ArgsError) | SpecFailed(spec: SpecError) | StatusFailed(status: StatusError)

  /** The classification the CMIP6 tools use, with the fixed CMIP6 table. */
  function GetCmip6DatasetIds(specs: seq<string>): Result<seq<string>, SpecError>
  {
    ConfigsWellFormed();
    GetDatasetIds(Cmip6Tools, specs)
  }

  /** With the CMIP6 table, a plain specifier is accepted exactly when it is a plausible CMIP6 identifier. */
  lemma Cmip6Classification(spec: string)
    requires '/' !in spec && '*' !in spec
    ensures GetCmip6DatasetIds([spec]).Success? <==> Cmip6Drs.PlausibleDatasetId(spec)
  {
    ConfigsWellFormed();
    GetDatasetIdCases(Cmip6Tools, spec);
    GetDatasetIdsSpec(Cmip6Tools, [spec]);
    assert [spec][0] == spec;
    assert Cmip6Drs.PlausibleDatasetId(spec) == DatasetDrs.PlausibleDatasetId(Cmip6Tools, spec);
  }

  /**
   * The results `run` hands to the writer: the statuses of the specified
   * datasets when there are any, and otherwise all datasets with the
   * given status.
   */
  function Run(specs: seq<string>, status: Option<string>, api: Api): Result<seq<Entry>, RunError>
  {
    match CheckArgs(specs, status)
    case Fail(e) => Failure(ArgsFailed(e))
    case Pass =>
      match GetCmip6DatasetIds(specs)
      case Failure(e) => Failure(SpecFailed(e))
      case Success(ids) =>
        if ids != [] then
          match StatusesFor(ids, api)
          case Failure(e) => Failure(StatusFailed(e))
          case Success(results) => Success(results)
        else Success(ResultsForStatus(status.value, api))
  }

  /**
   * With dataset specifiers, the results are one per specifier, in order,
   * each with the identifier it names and that identifier's status or
   * `UNKNOWN`; with a status, they are the one response's datasets.
   */
  lemma RunSpec(specs: seq<string>, status: Option<string>, api: Api)
    requires Run(specs, status, api).Success?
    ensures specs != [] ==>
      var ids := GetCmip6DatasetIds(specs).value;
      var r := Run(specs, status, api).value;
      |r| == |specs| == |ids| && forall i :: 0 <= i < |specs| ==>
        DatasetStatus(ids[i], api(IdQuery(ids[i]))).Success?
        && r[i] == (ids[i], StatusOrUnknown(DatasetStatus(ids[i], api(IdQuery(ids[i]))).value))
    ensures specs == [] ==> StatusGiven(status) && Run(specs, status, api).value == ResultsForStatus(status.value, api)
  {
    ConfigsWellFormed();
    GetDatasetIdsSpec(Cmip6Tools, specs);
    if specs != [] {
      StatusesForSpec(GetCmip6DatasetIds(specs).value, api);
    }
  }
}
