/**
 * `DatasetIDGetter` of the restructuring tool: the dataset identifier of
 * a CMIP6 file, made of facets read from the file's global attributes and
 * from its file name, followed by `.v` and a version.
 *
 * The regular expressions built from the file-name templates are taken
 * as given: each matcher is a partial function from a file name to the
 * named groups it captures. The attributes of the netCDF file are a map
 * from attribute name to value.
 */
module DatasetIdGetter {
  import opened Wrappers
  import opened Text
  import opened PosixPath
  import DrsConfigs
  import DatasetDrs
  import Cmip6Drs

  datatype GetterError =
    | CannotParse(filename: string)
    | NotFound(key: string, path: string)
    | Mismatch(path: string, key: string, fromContents: string, fromPath: string)

  // ---------------------------------------------------------------------
  // templates

  /** The index of the first `}` in `s`, or `|s|` when there is none. */
  function CloseAt(s: string): (j: nat)
    ensures j <= |s| && (j < |s| ==> s[j] == '}')
    ensures forall k :: 0 <= k < j ==> s[k] != '}'
  {
    if s == [] || s[0] == '}' then 0
    else
      var j := 1 + CloseAt(s[1..]);
      assert forall k :: 1 <= k < j ==> s[k] == s[1..][k - 1];
      j
  }

  /**
   * `_get_facet_names_from_template`: the names of the fields of a
   * template, left to right, as `re.finditer` finds `{([^}]+)}`.
   */
  function Tokens(t: string): seq<string>
    decreases |t|
  {
    if t == [] then []
    else
      var j := CloseAt(t[1..]);
      if t[0] == '{' && 0 < j < |t| - 1 then [t[1..j + 1]] + Tokens(t[j + 2..])
      else Tokens(t[1..])
  }

  /**
   * `template.format(**m)` for a template whose fields are plain names:
   * each field is replaced by its value, and `None` stands for the
   * `KeyError` of a field `m` has no value for.
   */
  function Format(t: string, m: map<string, string>): Option<string>
    decreases |t|
  {
    if t == [] then Some("")
    else
      var j := CloseAt(t[1..]);
      if t[0] == '{' && 0 < j < |t| - 1 then
        var name := t[1..j + 1];
        var rest := Format(t[j + 2..], m);
        if name in m && rest.Some? then Some(m[name] + rest.value) else None
      else
        var rest := Format(t[1..], m);
        if rest.Some? then Some([t[0]] + rest.value) else None
  }

  /** Formatting succeeds exactly when every field of the template has a value. */
  lemma {:induction false} FormatDefined(t: string, m: map<string, string>)
    ensures Format(t, m).Some? <==> forall n :: n in Tokens(t) ==> n in m
    decreases |t|
  {
    if t != [] {
      var j := CloseAt(t[1..]);
      if t[0] == '{' && 0 < j < |t| - 1 {
        FormatDefined(t[j + 2..], m);
      } else {
        FormatDefined(t[1..], m);
      }
    }
  }

  function Braced(n: string): string
  {
    "{" + n + "}"
  }

  function BracedAll(names: seq<string>): (r: seq<string>)
    ensures |r| == |names| && forall i :: 0 <= i < |names| ==> r[i] == Braced(names[i])
  {
    if names == [] then [] else [Braced(names[0])] + BracedAll(names[1..])
  }

  /** A template of fields only, separated by `sep`: `{a}.{b}.{c}`. */
  function FieldTemplate(names: seq<string>, sep: char): string
  {
    Join(BracedAll(names), sep)
  }

  /** The values of `names` in `m`, in the order of `names`. */
  function Values(names: seq<string>, m: map<string, string>): (r: seq<string>)
    requires forall n :: n in names ==> n in m
    ensures |r| == |names| && forall i :: 0 <= i < |names| ==> r[i] == m[names[i]]
  {
    if names == [] then [] else [m[names[0]]] + Values(names[1..], m)
  }

  predicate FieldName(n: string)
  {
    n != "" && '}' !in n
  }

  /** Where the scan finds a field at the front of a template. */
  lemma FieldShape(n: string, rest: string)
    requires FieldName(n)
    ensures var t := Braced(n) + rest;
      && |t| == |n| + 2 + |rest| && t[0] == '{' && CloseAt(t[1..]) == |n|
      && t[1..|n| + 1] == n && t[|n| + 2..] == rest
  {
    var t := Braced(n) + rest;
    assert t[1..] == n + "}" + rest;
    var j := CloseAt(t[1..]);
    assert t[1..][|n|] == '}';
    assert forall k :: 0 <= k < |n| ==> t[1..][k] == n[k] && n[k] in n;
    assert j == |n|;
  }

  /** A field at the front of a template. */
  lemma FieldStep(n: string, rest: string, m: map<string, string>)
    requires FieldName(n)
    ensures Tokens(Braced(n) + rest) == [n] + Tokens(rest)
    ensures Format(Braced(n) + rest, m)
         == if n in m && Format(rest, m).Some? then Some(m[n] + Format(rest, m).value) else None
  {
    var t := Braced(n) + rest;
    FieldShape(n, rest);
    var k := |n| + 2;
    assert Tokens(t) == [t[1..k - 1]] + Tokens(t[k..]);
    assert Format(t, m) == if t[1..k - 1] in m && Format(t[k..], m).Some? then Some(m[t[1..k - 1]] + Format(t[k..], m).value) else None;
  }

  /** A literal character other than `{` at the front of a template. */
  lemma LiteralStep(c: char, rest: string, m: map<string, string>)
    requires c != '{'
    ensures Tokens([c] + rest) == Tokens(rest)
    ensures Format([c] + rest, m) == if Format(rest, m).Some? then Some([c] + Format(rest, m).value) else None
  {
    assert ([c] + rest)[1..] == rest;
  }

  lemma Associative(a: string, b: string, c: string)
    ensures a + (b + c) == a + b + c
  {
  }

  /**
   * The fields of a field template are its names, in order; formatting it
   * joins the names' values with the separator.
   */
  lemma {:induction false} FieldTemplateSpec(names: seq<string>, sep: char, m: map<string, string>)
    requires names != [] && sep != '{'
    requires forall i :: 0 <= i < |names| ==> FieldName(names[i])
    ensures Tokens(FieldTemplate(names, sep)) == names
    ensures (forall n :: n in names ==> n in m) ==> Format(FieldTemplate(names, sep), m) == Some(Join(Values(names, m), sep))
    decreases |names|
  {
    var b := BracedAll(names);
    if |names| == 1 {
      assert FieldTemplate(names, sep) == Braced(names[0]) + "";
      FieldStep(names[0], "", m);
      if names[0] in m {
        assert Values(names, m) == [m[names[0]]];
        assert m[names[0]] + "" == m[names[0]];
      }
    } else {
      var rest := FieldTemplate(names[1..], sep);
      assert b[1..] == BracedAll(names[1..]);
      assert FieldTemplate(names, sep) == Braced(names[0]) + ([sep] + rest);
      FieldStep(names[0], [sep] + rest, m);
      LiteralStep(sep, rest, m);
      FieldTemplateSpec(names[1..], sep, m);
      if forall n :: n in names ==> n in m {
        assert forall n :: n in names[1..] ==> n in names;
        var vs := Values(names, m);
        var tail := Join(Values(names[1..], m), sep);
        assert vs[1..] == Values(names[1..], m);
        assert Join(vs, sep) == m[names[0]] + [sep] + tail;
        assert Format(rest, m) == Some(tail);
        assert Format([sep] + rest, m) == Some([sep] + tail);
        Associative(m[names[0]], [sep], tail);
      }
    }
  }

  /** The nine facets of a CMIP6 dataset identifier, in order. */
  const DatasetIdFacets: seq<string> := [
    "mip_era", "activity_id", "institution_id", "source_id", "experiment_id",
    "member_id", "table_id", "variable_id", "grid_label"]

  /**
   * `dataset_id_format` of the restructuring tool's configuration,
   * `{mip_era}.{activity_id}.....{grid_label}`: the nine facets as fields
   * separated by dots.
   */
  const DatasetIdFormat: string := FieldTemplate(DatasetIdFacets, '.')

  /** The fields of the configured identifier format are the nine facets, and formatting joins their values with dots. */
  lemma DatasetIdFormatFields(m: map<string, string>)
    ensures Tokens(DatasetIdFormat) == DatasetIdFacets
    ensures (forall n :: n in DatasetIdFacets ==> n in m) ==> Format(DatasetIdFormat, m) == Some(Join(Values(DatasetIdFacets, m), '.'))
  {
    assert forall i :: 0 <= i < |DatasetIdFacets| ==> FieldName(DatasetIdFacets[i]) by {
      forall i | 0 <= i < |DatasetIdFacets| ensures FieldName(DatasetIdFacets[i]) {
        assert DatasetIdFacets[i] in DatasetIdFacets;
      }
    }
    FieldTemplateSpec(DatasetIdFacets, '.', m);
  }

  // ---------------------------------------------------------------------
  // facets from the file name

  type Matcher = string -> Option<map<string, string>>

  /** The groups of the first matcher that accepts `filename`. */
  function FirstMatch(matchers: seq<Matcher>, filename: string): Result<map<string, string>, GetterError>
  {
    if matchers == [] then Failure(CannotParse(filename))
    else if matchers[0](filename).Some? then Success(matchers[0](filename).value)
    else FirstMatch(matchers[1..], filename)
  }

  /**
   * The groups come from a matcher that accepts the name while every
   * earlier matcher rejects it; when none accepts it the lookup fails,
   * naming the file.
   */
  lemma {:induction false} FirstMatchSpec(matchers: seq<Matcher>, filename: string)
    ensures var r := FirstMatch(matchers, filename);
      && (r.Success? <==> exists i :: 0 <= i < |matchers| && matchers[i](filename).Some?)
      && (r.Success? ==> exists i :: 0 <= i < |matchers| && matchers[i](filename) == Some(r.value)
                                    && forall j :: 0 <= j < i ==> matchers[j](filename).None?)
      && (r.Failure? ==> r.error == CannotParse(filename))
  {
    if matchers != [] && matchers[0](filename).None? {
      FirstMatchSpec(matchers[1..], filename);
      var r := FirstMatch(matchers, filename);
      if r.Success? {
        var i :| 0 <= i < |matchers[1..]| && matchers[1..][i](filename) == Some(r.value)
                 && forall j :: 0 <= j < i ==> matchers[1..][j](filename).None?;
        assert matchers[i + 1](filename) == Some(r.value);
        forall j | 0 <= j < i + 1 ensures matchers[j](filename).None? {
          if j > 0 {
            assert matchers[j] == matchers[1..][j - 1];
          }
        }
      }
      if exists i :: 0 <= i < |matchers| && matchers[i](filename).Some? {
        var i :| 0 <= i < |matchers| && matchers[i](filename).Some?;
        assert i > 0 && matchers[1..][i - 1] == matchers[i];
      }
    }
  }

  /** `_parse_from_file_name`: try the matchers in order. */
  method ParseFromFileName(matchers: seq<Matcher>, filename: string) returns (r: Result<map<string, string>, GetterError>)
    ensures r == FirstMatch(matchers, filename)
  {
    var i := 0;
    while i < |matchers|
      invariant 0 <= i <= |matchers|
      invariant FirstMatch(matchers, filename) == FirstMatch(matchers[i..], filename)
    {
      var m := matchers[i](filename);
      if m.Some? {
        return Success(m.value);
      }
      assert matchers[i..][1..] == matchers[i + 1..];
      i := i + 1;
    }
    return Failure(CannotParse(filename));
  }

  // ---------------------------------------------------------------------
  // facets from file contents and file name together

  /** `_parse_from_netcdf_attributes`: each wanted facet's attribute, or `None` when the file lacks it. */
  function ContentsOf(names: seq<string>, attrs: map<string, string>): (r: map<string, Option<string>>)
    ensures r.Keys == set n | n in names
    ensures forall n :: n in r ==> r[n] == if n in attrs then Some(attrs[n]) else None
  {
    map n | n in names :: if n in attrs then Some(attrs[n]) else None
  }

  /**
   * The value `_get_facets` settles on for one facet: the file's own
   * value wins, but a file name that gives a different one is an error;
   * without a value in the file the file name's is used, and with neither
   * it is an error.
   */
  function FacetValue(key: string, path: string, fromPath: map<string, string>, fromContents: Option<string>): (r: Result<string, GetterError>)
    ensures r.Success? && fromContents.Some? ==> r.value == fromContents.value
    ensures r.Success? && fromContents.None? ==> key in fromPath && r.value == fromPath[key]
    ensures r.Failure? <==> ((fromContents.None? && key !in fromPath)
                          || (fromContents.Some? && key in fromPath && fromPath[key] != fromContents.value))
    ensures r.Failure? && fromContents.Some? ==> r.error == Mismatch(path, key, fromContents.value, fromPath[key])
    ensures r.Failure? && fromContents.None? ==> r.error == NotFound(key, path)
  {
    match fromContents
    case None =>
      if key in fromPath then Success(fromPath[key]) else Failure(NotFound(key, path))
    case Some(v) =>
      if key in fromPath && v != fromPath[key] then Failure(Mismatch(path, key, v, fromPath[key]))
      else Success(v)
  }

  /** The value settled on for a wanted name. */
  function FacetOf(key: string, path: string, fromPath: map<string, string>, contents: map<string, Option<string>>): Result<string, GetterError>
    requires key in contents
  {
    FacetValue(key, path, fromPath, contents[key])
  }

  /** The loop of `_get_facets` from `acc` on: settle each name in turn, stopping at the first failure. */
  function Facets(names: seq<string>, path: string, fromPath: map<string, string>, contents: map<string, Option<string>>,
                  acc: map<string, string>): Result<map<string, string>, GetterError>
    requires forall n :: n in names ==> n in contents
  {
    if names == [] then Success(acc)
    else
      var v := FacetOf(names[0], path, fromPath, contents);
      if v.Failure? then Failure(v.error)
      else Facets(names[1..], path, fromPath, contents, acc[names[0] := v.value])
  }

  /**
   * Started from nothing, the facets hold exactly the wanted names,
   * whatever else the file name supplied, each with the value settled on
   * for it; they fail exactly when some name fails, and then with the
   * first such failure.
   */
  lemma FacetsSpec(names: seq<string>, path: string, fromPath: map<string, string>, contents: map<string, Option<string>>,
                   acc: map<string, string>)
    requires forall n :: n in names ==> n in contents
    ensures var r := Facets(names, path, fromPath, contents, acc);
      && (r.Success? <==> forall i :: 0 <= i < |names| ==> FacetOf(names[i], path, fromPath, contents).Success?)
      && (r.Success? ==> && r.value.Keys == acc.Keys + (set n | n in names)
                         && (forall n :: n in names ==> r.value[n] == FacetOf(n, path, fromPath, contents).value)
                         && (forall n :: n in acc && n !in names ==> r.value[n] == acc[n]))
      && (r.Failure? ==> exists i :: && 0 <= i < |names| && FacetOf(names[i], path, fromPath, contents).Failure?
                                     && r.error == FacetOf(names[i], path, fromPath, contents).error
                                     && forall j :: 0 <= j < i ==> FacetOf(names[j], path, fromPath, contents).Success?)
  {
    FacetsSucceed(names, path, fromPath, contents, acc);
    FacetsValues(names, path, fromPath, contents, acc);
    FacetsFirstFailure(names, path, fromPath, contents, acc);
  }

  /** The loop succeeds exactly when every name settles. */
  lemma {:induction false} FacetsSucceed(names: seq<string>, path: string, fromPath: map<string, string>, contents: map<string, Option<string>>,
                                        acc: map<string, string>)
    requires forall n :: n in names ==> n in contents
    ensures Facets(names, path, fromPath, contents, acc).Success?
        <==> forall i :: 0 <= i < |names| ==> FacetOf(names[i], path, fromPath, contents).Success?
    decreases |names|
  {
    if names != [] {
      var key := names[0];
      var v := FacetOf(key, path, fromPath, contents);
      var tail := names[1..];
      assert forall n :: n in tail ==> n in names;
      assert forall i :: 1 <= i < |names| ==> names[i] == tail[i - 1];
      if v.Success? {
        FacetsSucceed(tail, path, fromPath, contents, acc[key := v.value]);
      }
    }
  }

  /** After a successful loop, every wanted name has its settled value and the rest of `acc` is kept. */
  lemma {:induction false} FacetsValues(names: seq<string>, path: string, fromPath: map<string, string>, contents: map<string, Option<string>>,
                                       acc: map<string, string>)
    requires forall n :: n in names ==> n in contents
    ensures var r := Facets(names, path, fromPath, contents, acc);
      r.Success? ==> && r.value.Keys == acc.Keys + (set n | n in names)
                     && (forall n :: n in names ==>
                           FacetOf(n, path, fromPath, contents).Success? && r.value[n] == FacetOf(n, path, fromPath, contents).value)
                     && (forall n :: n in acc && n !in names ==> r.value[n] == acc[n])
    decreases |names|
  {
    if names != [] {
      var key := names[0];
      var v := FacetOf(key, path, fromPath, contents);
      var tail := names[1..];
      assert forall n :: n in tail ==> n in names;
      if v.Success? {
        FacetsValues(tail, path, fromPath, contents, acc[key := v.value]);
        assert (set n | n in names) == {key} + (set n | n in tail) by {
          assert names == [key] + tail;
        }
      }
    }
  }

  /** A failed loop fails with the first name that does not settle. */
  lemma {:induction false} FacetsFirstFailure(names: seq<string>, path: string, fromPath: map<string, string>, contents: map<string, Option<string>>,
                                             acc: map<string, string>)
    requires forall n :: n in names ==> n in contents
    ensures var r := Facets(names, path, fromPath, contents, acc);
      r.Failure? ==> exists i :: && 0 <= i < |names| && FacetOf(names[i], path, fromPath, contents).Failure?
                                 && r.error == FacetOf(names[i], path, fromPath, contents).error
                                 && forall j :: 0 <= j < i ==> FacetOf(names[j], path, fromPath, contents).Success?
    decreases |names|
  {
    if names != [] {
      var key := names[0];
      var v := FacetOf(key, path, fromPath, contents);
      var tail := names[1..];
      assert forall n :: n in tail ==> n in names;
      var r := Facets(names, path, fromPath, contents, acc);
      if v.Success? && r.Failure? {
        FacetsFirstFailure(tail, path, fromPath, contents, acc[key := v.value]);
        var i :| && 0 <= i < |tail| && FacetOf(tail[i], path, fromPath, contents).Failure?
                 && r.error == FacetOf(tail[i], path, fromPath, contents).error
                 && forall j :: 0 <= j < i ==> FacetOf(tail[j], path, fromPath, contents).Success?;
        assert names[i + 1] == tail[i];
        forall j | 0 <= j < i + 1 ensures FacetOf(names[j], path, fromPath, contents).Success? {
          if j > 0 {
            assert names[j] == tail[j - 1];
          }
        }
      } else if v.Failure? {
        assert FacetOf(names[0], path, fromPath, contents).Failure?;
      }
    }
  }

  /** `_get_facets`, for a file whose wanted attributes are `contents` and whose name gave `fromPath`. */
  method GetFacets(names: seq<string>, path: string, fromPath: map<string, string>, contents: map<string, Option<string>>)
    returns (r: Result<map<string, string>, GetterError>)
    requires forall n :: n in names ==> n in contents
    ensures r == Facets(names, path, fromPath, contents, map[])
  {
    var all := map[];
    var i := 0;
    while i < |names|
      invariant 0 <= i <= |names|
      invariant Facets(names, path, fromPath, contents, map[]) == Facets(names[i..], path, fromPath, contents, all)
    {
      var key := names[i];
      assert names[i..][1..] == names[i + 1..];
      var v := FacetValue(key, path, fromPath, contents[key]);
      if v.Failure? {
        return Failure(v.error);
      }
      all := all[key := v.value];
      i := i + 1;
    }
    return Success(all);
  }

  // ---------------------------------------------------------------------
  // the identifier

  /** The identifier of the file at `path`, as a function of everything `get_dataset_id` consults. */
  function DatasetIdOf(matchers: seq<Matcher>, version: int, path: string, attrs: map<string, string>): Result<string, GetterError>
  {
    var fromPath := FirstMatch(matchers, Basename(path));
    if fromPath.Failure? then Failure(fromPath.error)
    else
      var contents := ContentsOf(DatasetIdFacets, attrs);
      var facets := Facets(DatasetIdFacets, path, fromPath.value, contents, map[]);
      if facets.Failure? then Failure(facets.error)
      else
        FacetsValues(DatasetIdFacets, path, fromPath.value, contents, map[]);
        Success(Join(Values(DatasetIdFacets, facets.value), '.') + ".v" + IntToString(version))
  }

  class Getter {
    const facetNames: seq<string>
    const matchers: seq<Matcher>
    const version: int

    /**
     * `version` is the constructor's argument, when there is one, and
     * `today` the `YYYYMMDD` date read as a number otherwise.
     */
    constructor(matchers: seq<Matcher>, version: Option<int>, today: nat)
      ensures this.facetNames == DatasetIdFacets && this.matchers == matchers
      ensures this.version == if version.Some? then version.value else today
    {
      DatasetIdFormatFields(map[]);
      this.facetNames := Tokens(DatasetIdFormat);
      this.matchers := matchers;
      this.version := if version.Some? then version.value else today;
    }

    /** `get_dataset_id`: an explicit `version` overrides the one fixed at construction. */
    method GetDatasetId(path: string, attrs: map<string, string>, version: Option<int>) returns (r: Result<string, GetterError>)
      requires facetNames == DatasetIdFacets
      ensures r == DatasetIdOf(matchers, if version.Some? then version.value else this.version, path, attrs)
    {
      var fromPath := ParseFromFileName(matchers, Basename(path));
      if fromPath.Failure? {
        return Failure(fromPath.error);
      }
      var contents := ContentsOf(facetNames, attrs);
      var facets := GetFacets(facetNames, path, fromPath.value, contents);
      if facets.Failure? {
        return Failure(facets.error);
      }
      FacetsValues(facetNames, path, fromPath.value, contents, map[]);
      DatasetIdFormatFields(facets.value);
      var unversioned := Format(DatasetIdFormat, facets.value);
      var v := if version.Some? then version.value else this.version;
      return Success(unversioned.value + ".v" + IntToString(v));
    }
  }

  /**
   * Nine non-empty, dot-free facet values with `CMIP6` as era and a known
   * activity, followed by `.v` and a non-negative version, form a
   * plausible CMIP6 identifier whose ten facets are the nine values and
   * the version.
   */
  lemma VersionedIdPlausible(vals: seq<string>, version: int)
    requires |vals| == 9 && version >= 0
    requires forall i :: 0 <= i < 9 ==> vals[i] != "" && '.' !in vals[i]
    requires vals[0] == "CMIP6" && vals[1] in DrsConfigs.Activities
    ensures Split(Join(vals, '.') + ".v" + IntToString(version), '.') == vals + ["v" + IntToString(version)]
    ensures Cmip6Drs.PlausibleDatasetId(Join(vals, '.') + ".v" + IntToString(version))
  {
    var digits := IntToString(version);
    var vs := "v" + digits;
    var all := vals + [vs];
    JoinAppend(vals, vs, '.');
    assert Join(vals, '.') + ".v" + digits == Join(all, '.');
    assert vs[1..] == digits;
    assert '.' !in vs by {
      assert forall k :: 1 <= k < |vs| ==> vs[k] == digits[k - 1];
    }
    assert forall i :: 0 <= i < |all| ==> '.' !in all[i];
    SplitJoin(all, '.');
    DatasetDrs.VersionNumberFacetSpec(vs);
    Cmip6Drs.PlausibleFacetsSpec(all);
  }

  /**
   * The identifier of a file whose settled facets are non-empty and
   * dot-free, with `CMIP6` as era and a known activity, and whose version
   * is not negative, is a plausible CMIP6 identifier: the nine facet
   * values and the version.
   */
  lemma IdIsPlausible(matchers: seq<Matcher>, version: int, path: string, attrs: map<string, string>)
    requires DatasetIdOf(matchers, version, path, attrs).Success?
    requires version >= 0
    ensures var fromPath := FirstMatch(matchers, Basename(path)).value;
      var contents := ContentsOf(DatasetIdFacets, attrs);
      var facets := Facets(DatasetIdFacets, path, fromPath, contents, map[]).value;
      var id := DatasetIdOf(matchers, version, path, attrs).value;
      PlausibleFacetValues(facets)
      ==> Split(id, '.') == Values(DatasetIdFacets, facets) + ["v" + IntToString(version)]
          && Cmip6Drs.PlausibleDatasetId(id)
  {
    var fromPath := FirstMatch(matchers, Basename(path)).value;
    var contents := ContentsOf(DatasetIdFacets, attrs);
    var facets := Facets(DatasetIdFacets, path, fromPath, contents, map[]).value;
    if PlausibleFacetValues(facets) {
      FacetValuesPlausible(facets, version);
    }
  }

  /**
   * Settled facets that can make a plausible identifier: all nine are
   * present, non-empty and dot-free, the era is `CMIP6` and the activity
   * is a known one.
   */
  predicate PlausibleFacetValues(facets: map<string, string>)
  {
    && (forall n :: n in DatasetIdFacets ==> n in facets && facets[n] != "" && '.' !in facets[n])
    && facets["mip_era"] == "CMIP6" && facets["activity_id"] in DrsConfigs.Activities
  }

  /** Plausible facet values for the nine names, with a version, make a plausible identifier. */
  lemma FacetValuesPlausible(facets: map<string, string>, version: int)
    requires PlausibleFacetValues(facets) && version >= 0
    ensures var id := Join(Values(DatasetIdFacets, facets), '.') + ".v" + IntToString(version);
      Split(id, '.') == Values(DatasetIdFacets, facets) + ["v" + IntToString(version)]
      && Cmip6Drs.PlausibleDatasetId(id)
  {
    var vals := Values(DatasetIdFacets, facets);
    forall i | 0 <= i < 9 ensures vals[i] != "" && '.' !in vals[i] {
      assert DatasetIdFacets[i] in DatasetIdFacets;
    }
    assert vals[0] == facets["mip_era"] && vals[1] == facets["activity_id"];
    VersionedIdPlausible(vals, version);
  }
}
