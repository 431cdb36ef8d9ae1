/**
 * `MIPStatusChecker`: the publication status of MIP datasets, asked for a
 * page of identifiers at a time, or for every dataset with a status by
 * following the response's cursor from page to page.
 */
module MipDatasetStatus {
  import opened Wrappers
  import opened Text
  import opened StatusCommon

  /** The status reported for an identifier the response does not mention. */
  const Unknown: string := "UNKNOWN"

  datatype PageError =
    | CountMismatch(numFound: int, listed: nat)
    | RepeatedCursor(cursor: string)
    | OutOfPages

  // ---------------------------------------------------------------------
  // statuses of given identifiers

  /** `dict((ds['dataset_id'], ds['status']) for ds in datasets)`: the last entry for an identifier wins. */
  function ResultsDict(datasets: seq<Entry>): map<string, string>
    decreases |datasets|
  {
    if datasets == [] then map[]
    else
      var last := datasets[|datasets| - 1];
      ResultsDict(datasets[..|datasets| - 1])[last.0 := last.1]
  }

  /**
   * The dictionary holds exactly the listed identifiers, each with the
   * status of its last entry.
   */
  lemma {:induction false} ResultsDictSpec(datasets: seq<Entry>, id: string)
    ensures var d := ResultsDict(datasets);
      && (id in d <==> exists i :: 0 <= i < |datasets| && datasets[i].0 == id)
      && (id in d ==> exists i :: 0 <= i < |datasets| && datasets[i] == (id, d[id])
                                 && forall j :: i < j < |datasets| ==> datasets[j].0 != id)
    decreases |datasets|
  {
    if datasets != [] {
      var n := |datasets| - 1;
      var init := datasets[..n];
      ResultsDictSpec(init, id);
      assert forall i :: 0 <= i < n ==> datasets[i] == init[i];
      if datasets[n].0 != id && id in ResultsDict(init) {
        var i :| 0 <= i < n && init[i] == (id, ResultsDict(init)[id])
                 && forall j :: i < j < n ==> init[j].0 != id;
        assert datasets[i] == (id, ResultsDict(datasets)[id]);
      }
    }
  }

  /** The query for one page of identifiers: joined with commas, and as many items as identifiers. */
  function PageQuery(ids: seq<string>): (q: Query)
    ensures q.datasetId == Join(ids, ',') && q.maxItems == Some(|ids|) && q.status.None? && q.cursor.None?
  {
    Query(Join(ids, ','), None, None, Some(|ids|))
  }

  /**
   * The result assembly of `_get_dataset_statuses_page`: the response must
   * list as many datasets as it says it found (the `assert`); then each
   * requested identifier, in order, gets its status from the response or
   * `UNKNOWN`.
   */
  function StatusesPage(ids: seq<string>, resp: Response): (r: Result<seq<Entry>, PageError>)
  {
    if |resp.datasets| != resp.numFound then Failure(CountMismatch(resp.numFound, |resp.datasets|))
    else
      var d := ResultsDict(resp.datasets);
      Success(seq(|ids|, i requires 0 <= i < |ids| => (ids[i], if ids[i] in d then d[ids[i]] else Unknown)))
  }

  /** The response lists `id`. */
  predicate Listed(datasets: seq<Entry>, id: string)
  {
    exists j :: 0 <= j < |datasets| && datasets[j].0 == id
  }

  /**
   * A page fails exactly when the count does not match; otherwise there is
   * one pair per requested identifier, in request order, with the status
   * of the identifier's last entry in the response, or `UNKNOWN` when the
   * response does not list it.
   */
  lemma StatusesPageSpec(ids: seq<string>, resp: Response)
    ensures var r := StatusesPage(ids, resp);
      && (r.Failure? <==> |resp.datasets| != resp.numFound)
      && (r.Failure? ==> r.error == CountMismatch(resp.numFound, |resp.datasets|))
      && (r.Success? ==> |r.value| == |ids| && forall i :: 0 <= i < |ids| ==> r.value[i].0 == ids[i])
      && (r.Success? ==> forall i :: 0 <= i < |ids| ==>
            r.value[i].1 == if Listed(resp.datasets, ids[i]) then resp.datasets[LastIndex(resp.datasets, ids[i])].1 else Unknown)
  {
    if StatusesPage(ids, resp).Success? {
      var r := StatusesPage(ids, resp).value;
      forall i | 0 <= i < |ids|
        ensures r[i].1 == if Listed(resp.datasets, ids[i]) then resp.datasets[LastIndex(resp.datasets, ids[i])].1 else Unknown
      {
        ResultsDictSpec(resp.datasets, ids[i]);
        if Listed(resp.datasets, ids[i]) {
          var d := ResultsDict(resp.datasets);
          var k := LastIndex(resp.datasets, ids[i]);
          var j :| 0 <= j < |resp.datasets| && resp.datasets[j] == (ids[i], d[ids[i]])
                   && forall m :: j < m < |resp.datasets| ==> resp.datasets[m].0 != ids[i];
          assert !(j < k) && !(k < j);
        }
      }
    }
  }

  /** The position of the last entry for `id`. */
  function LastIndex(datasets: seq<Entry>, id: string): (i: nat)
    requires Listed(datasets, id)
    ensures i < |datasets| && datasets[i].0 == id && forall j :: i < j < |datasets| ==> datasets[j].0 != id
    decreases |datasets|
  {
    var n := |datasets| - 1;
    if datasets[n].0 == id then n
    else
      var j :| 0 <= j < |datasets| && datasets[j].0 == id;
      assert datasets[..n][j] == datasets[j];
      assert Listed(datasets[..n], id);
      LastIndex(datasets[..n], id)
  }

  /** `_get_dataset_statuses_page`: one query for the page, and its results. */
  function GetDatasetStatusesPage(ids: seq<string>, api: Api): Result<seq<Entry>, PageError>
  {
    StatusesPage(ids, api(PageQuery(ids)))
  }

  /**
   * `_get_dataset_statuses` over the pages `util.paginate_list` makes of
   * the identifiers: the pages' results one after another, or the first
   * page's failure.
   */
  function GetDatasetStatuses(pages: seq<seq<string>>, api: Api): Result<seq<Entry>, PageError>
    decreases |pages|
  {
    if pages == [] then Success([])
    else
      match GetDatasetStatusesPage(pages[0], api)
      case Failure(e) => Failure(e)
      case Success(first) =>
        match GetDatasetStatuses(pages[1..], api)
        case Failure(e) => Failure(e)
        case Success(rest) => Success(first + rest)
  }

  function Flatten(pages: seq<seq<string>>): seq<string>
    decreases |pages|
  {
    if pages == [] then [] else pages[0] + Flatten(pages[1..])
  }

  /**
   * When every page succeeds, the results are one pair per identifier of
   * the pages taken in order, whatever the page boundaries.
   */
  lemma {:induction false} GetDatasetStatusesOrder(pages: seq<seq<string>>, api: Api)
    requires GetDatasetStatuses(pages, api).Success?
    ensures var r := GetDatasetStatuses(pages, api).value;
      |r| == |Flatten(pages)| && forall i :: 0 <= i < |r| ==> r[i].0 == Flatten(pages)[i]
    decreases |pages|
  {
    if pages != [] {
      var first := GetDatasetStatusesPage(pages[0], api).value;
      StatusesPageSpec(pages[0], api(PageQuery(pages[0])));
      GetDatasetStatusesOrder(pages[1..], api);
      var rest := GetDatasetStatuses(pages[1..], api).value;
      var r := GetDatasetStatuses(pages, api).value;
      assert r == first + rest;
      forall i | 0 <= i < |r| ensures r[i].0 == Flatten(pages)[i] {
        if i >= |first| {
          assert r[i] == rest[i - |first|];
        }
      }
    }
  }

  // ---------------------------------------------------------------------
  // every dataset with a status

  /**
   * The loop of `_get_results_for_status` from query `q`, with `acc` the
   * datasets collected so far. The loop stops when a response has no
   * cursor; the next query carries the response's cursor, which must
   * differ from the one sent. `fuel` bounds the number of further pages,
   * which the server, not the client, decides.
   */
  function Collect(q: Query, api: Api, fuel: nat, acc: seq<Entry>): Result<seq<Entry>, PageError>
    decreases fuel
  {
    var resp := api(q);
    var all := acc + resp.datasets;
    match resp.cursor
    case None => Success(all)
    case Some(c) =>
      if q.cursor == Some(c) then Failure(RepeatedCursor(c))
      else if fuel == 0 then Failure(OutOfPages)
      else Collect(q.(cursor := Some(c)), api, fuel - 1, all)
  }

  /** The pages collected so far, and this page, come first and in order in the result. */
  lemma {:induction false} CollectPrefix(q: Query, api: Api, fuel: nat, acc: seq<Entry>)
    requires Collect(q, api, fuel, acc).Success?
    ensures acc + api(q).datasets <= Collect(q, api, fuel, acc).value
    decreases fuel
  {
    var resp := api(q);
    if resp.cursor.Some? {
      var q' := q.(cursor := resp.cursor);
      CollectPrefix(q', api, fuel - 1, acc + resp.datasets);
      assert acc + resp.datasets <= acc + resp.datasets + api(q').datasets;
    }
  }

  /** More fuel changes nothing once the loop has stopped on its own. */
  lemma {:induction false} CollectMoreFuel(q: Query, api: Api, fuel: nat, more: nat, acc: seq<Entry>)
    requires fuel <= more && Collect(q, api, fuel, acc) != Failure(OutOfPages)
    ensures Collect(q, api, more, acc) == Collect(q, api, fuel, acc)
    decreases fuel
  {
    var resp := api(q);
    if resp.cursor.Some? && q.cursor != resp.cursor {
      CollectMoreFuel(q.(cursor := resp.cursor), api, fuel - 1, more - 1, acc + resp.datasets);
    }
  }

  /** A response without a cursor is the last page. */
  lemma SinglePage(q: Query, api: Api, fuel: nat, acc: seq<Entry>)
    requires api(q).cursor.None?
    ensures Collect(q, api, fuel, acc) == Success(acc + api(q).datasets)
  {
  }

  /** A response that gives back the cursor it was sent stops the loop with the failed assertion. */
  lemma RepeatedCursorStops(q: Query, api: Api, fuel: nat, acc: seq<Entry>, c: string)
    requires q.cursor == Some(c) && api(q).cursor == Some(c)
    ensures Collect(q, api, fuel, acc) == Failure(RepeatedCursor(c))
  {
  }

  /**
   * The check compares each cursor with the previous one only: a server
   * that alternates between two cursors is followed for as many pages as
   * the fuel allows, whatever the fuel.
   */
  lemma {:induction false} AlternatingCursorsNeverStop(q: Query, api: Api, fuel: nat, acc: seq<Entry>, a: string, b: string)
    requires a != b
    requires forall q' :: api(q').cursor == Some(if q'.cursor == Some(a) then b else a)
    requires q.cursor == None || q.cursor == Some(a) || q.cursor == Some(b)
    ensures Collect(q, api, fuel, acc) == Failure(OutOfPages)
    decreases fuel
  {
    var resp := api(q);
    if fuel > 0 {
      AlternatingCursorsNeverStop(q.(cursor := resp.cursor), api, fuel - 1, acc + resp.datasets, a, b);
    }
  }

  /**
   * `_get_results_for_status`: `ALL` sends no status; the pages' datasets
   * are appended in order until a response carries no cursor.
   */
  method GetResultsForStatus(status: string, api: Api, fuel: nat) returns (r: Result<seq<Entry>, PageError>)
    ensures r == Collect(StatusQuery(status), api, fuel, [])
  {
    var q := StatusQuery(status);
    var all: seq<Entry> := [];
    var left := fuel;
    while true
      invariant Collect(StatusQuery(status), api, fuel, []) == Collect(q, api, left, all)
      decreases left
    {
      var resp := api(q);
      all := all + resp.datasets;
      if resp.cursor.None? {
        return Success(all);
      }
      var c := resp.cursor.value;
      if q.cursor == Some(c) {
        return Failure(RepeatedCursor(c));
      }
      if left == 0 {
        return Failure(OutOfPages);
      }
      q := q.(cursor := Some(c));
      left := left - 1;
    }
  }
}
