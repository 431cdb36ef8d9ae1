# ceda-mip-tools core, modelled and proved in Dafny

This project models the checkable core of the CEDA MIP / CMIP6 command-line
tools and proves properties of that model:

- **Request queue** (`RequestNames`, `RequestPayload`, `RequestStore`). A
  migration or retrieval request is a file named `user-id-YYYY-MM-DD`. Its
  status is decided by which of six per-status directories holds it. Its
  payload is one or two text lines, and a counter file hands out ids. The
  store is a class whose `dirs` field maps each status to that
  directory's files and their contents, and whose `lastId` field is the
  counter file. The login name and today's date are parameters.
- **Permission oracle** (`PermBits`, `UnixFs`, `PermCommon`,
  `PermissionsChecker`, `LegacyPermissionsChecker`). This decides whether a
  user (uid and group ids) has `r`/`w`/`x` access to a path, with execute
  access on every directory above it. One level of symbolic link is
  followed at each step. Results are memoised in a per-checker cache. Each
  of the two variants is stated once as functions that thread the cache
  and logs through the recursion, and once as the methods of a `Checker`
  class proved to agree with those functions. Both are proved sound and
  complete against a cache-free verdict.
- **Validators** (`Gws`, `DrsConfigs`, `DatasetDrs`, `Cmip6Drs`).
  - `Gws` resolves a group-workspace root.
  - `DrsConfigs` holds the configured DRS tables as constants.
  - `DatasetDrs` and `Cmip6Drs` test DRS facet plausibility and map a
    directory to a dataset id, for the configurable and the fixed CMIP6
    table.
- **Dataset ids and restructuring** (`DatasetIdGetter`, `Restructure`).
  - `DatasetIdGetter` merges facets from the file name and the file
    contents, then formats `<id>.v<version>`.
  - `Restructure` plans output directories, checks write permission,
    memoises device numbers, creates directories and renames files. It
    works over a file system given as a map from path to node.
- **Status queries** (`StatusCommon`, `MipDatasetStatus`,
  `Cmip6DatasetStatus`). These cover:
  - argument checks and classification of dataset specifiers;
  - aligning API results with the requested ids, with an `UNKNOWN`
    default;
  - the cursor pagination loop;
  - row numbering and the JSON document.

  The API is a function parameter from query to response.

Shared helpers: `Wrappers` (Option, Result, Outcome), `Text` (Python's
`split`/`join`/`strip`, decimal digits, string ordering and sorting), and
`PosixPath` (`normpath`, `dirname`, `basename` and `join` as `posixpath`
computes them).

## Model

| member | source | states |
|---|---|---|
| RequestNames.StatusValue | ceda_cmip6_tools/cmip6_migration_request_lib.py:9-18 | each status has a value below 6 at which `all_statuses` lists it |
| RequestNames.AllStatusesComplete | ceda_cmip6_tools/cmip6_migration_request_lib.py:9-18 | every status is in `all_statuses` |
| RequestNames.DirNamesDistinct | ceda_cmip6_tools/cmip6_migration_request_lib.py:334-361 | a manager's `dir_lookup` gives the six statuses six distinct directories; no directory is a counter file; the two managers share none |
| RequestNames.ParseFilename | ceda_cmip6_tools/cmip6_migration_request_lib.py:204-219 | a parsed name has a non-empty, dash-free user and a real calendar date; one final newline, which `$` lets through, is dropped from the day field |
| RequestNames.ParseAcceptsPattern | ceda_cmip6_tools/cmip6_migration_request_lib.py:204-219 | `parse_filename` raises `BadFileName` exactly for the names `re.match` with `[^-]+-[0-9]+-dddd-dd-dd$` rejects, where `$` also matches before one final newline |
| RequestNames.ParseMakeRoundTrip | ceda_cmip6_tools/cmip6_migration_request_lib.py:204-229 | parsing `make_filename(u, id, d)` gives back `(u, id, d)` for a non-empty dash-free user and a valid date |
| RequestNames.MakeParseRoundTrip | ceda_cmip6_tools/cmip6_migration_request_lib.py:204-229 | formatting a parsed name's fields reproduces the name exactly when the name has no final newline and its id has no leading zero |
| RequestNames.ParseTrailingNewline | ceda_cmip6_tools/cmip6_migration_request_lib.py:204-211 | a name followed by one newline parses exactly as the name itself |
| RequestNames.MakeNoNewline | ceda_cmip6_tools/cmip6_migration_request_lib.py:222-229 | a formatted name never ends in a newline, so only names without one can be reproduced |
| RequestNames.BadUserUnparsable | ceda_cmip6_tools/cmip6_migration_request_lib.py:222-229 | a login name that is empty or holds a dash makes a file name that cannot be parsed |
| RequestPayload.KeepNonBlank | ceda_cmip6_tools/cmip6_migration_request_lib.py:91-93 | the kept lines are stripped and non-empty, and no more than were given |
| RequestPayload.NonEmptyLines | ceda_cmip6_tools/cmip6_migration_request_lib.py:91-93 | every line returned is stripped, non-empty and newline-free |
| RequestPayload.NonEmptyLinesOfLines | ceda_cmip6_tools/cmip6_migration_request_lib.py:91-93 | lines written one per line come back unchanged |
| RequestPayload.Decode | ceda_cmip6_tools/cmip6_migration_request_lib.py:122-159 | a decoded payload has the requested kind, and its paths are stripped non-empty lines |
| RequestPayload.DecodeEncode | ceda_cmip6_tools/cmip6_migration_request_lib.py:118-159 | decoding what `_encode` wrote gives the payload back; an empty or missing restore path reads back as None |
| RequestPayload.DecodeLineCount | ceda_cmip6_tools/cmip6_migration_request_lib.py:122-159 | a migration decodes iff there is exactly one non-blank line; a retrieval iff there are one or two |
| RequestStore.Renamed | ceda_cmip6_tools/cmip6_migration_request_lib.py:279-287 | the rename moves the file, with its content, to the target directory and out of the source one; every other directory and file is unchanged |
| RequestStore.RenameKeepsOneLocation | ceda_cmip6_tools/cmip6_migration_request_lib.py:279-287 | a file held by one directory only is, after the move, held by the target directory only |
| RequestStore.Written | ceda_cmip6_tools/cmip6_migration_request_lib.py:74-80 | writing sets one file of one status directory and changes nothing else |
| RequestStore.InitDirs | ceda_cmip6_tools/cmip6_migration_request_lib.py:189-201 | after `initialise` every status directory exists, and existing ones are untouched |
| RequestStore.InitCounter | ceda_cmip6_tools/cmip6_migration_request_lib.py:196-201 | the counter is set to 0 only when absent |
| RequestStore.InitialiseIdempotent | ceda_cmip6_tools/cmip6_migration_request_lib.py:189-201 | running `initialise` twice is the same as once |
| RequestStore.DefaultStatusesAllButCreating | ceda_cmip6_tools/cmip6_migration_request_lib.py:249-276 | the default scan reads every status except CREATING |
| RequestStore.ScanStep | ceda_cmip6_tools/cmip6_migration_request_lib.py:249-276 | reading one more directory adds exactly its kept requests to the collection |
| RequestStore.InsertById | ceda_cmip6_tools/cmip6_migration_request_lib.py:249-276 | inserting adds exactly that request and nothing else, one element longer |
| RequestStore.InsertByIdSorted | ceda_cmip6_tools/cmip6_migration_request_lib.py:249-276 | inserting into a list sorted by id keeps it sorted |
| RequestStore.SortById | ceda_cmip6_tools/cmip6_migration_request_lib.py:249-276 | the result is sorted by id and is a permutation of its input |
| RequestStore.WithdrawTwiceFails | ceda_cmip6_tools/cmip6_migration_request_lib.py:232-239 | a request just withdrawn cannot be withdrawn again |
| RequestStore.RenameConsistent | ceda_cmip6_tools/cmip6_migration_request_lib.py:279-287 | a move keeps every file parsable with no id beyond the counter |
| RequestStore.ReadAfterCreate | ceda_cmip6_tools/cmip6_migration_request_lib.py:42-53 | a created request reads back from NOT_STARTED as its payload |
| RequestStore.CreatedConsistent | ceda_cmip6_tools/cmip6_migration_request_lib.py:295-322 | a new file with id one past the counter keeps the queue consistent with the advanced counter |
| RequestStore.CreateVisibleOnce | ceda_cmip6_tools/cmip6_migration_request_lib.py:313-322 | after `create_request` the default scan for the new id finds the new request exactly once, in NOT_STARTED |
| RequestStore.CreatedSelectedIn | ceda_cmip6_tools/cmip6_migration_request_lib.py:249-276 | a scan for the new id over directories naming NOT_STARTED once finds the new request exactly once |
| RequestStore.Manager.Initialise | ceda_cmip6_tools/cmip6_migration_request_lib.py:189-201 | the new directories and counter are those of `InitDirs`/`InitCounter` |
| RequestStore.Manager.NextId | ceda_cmip6_tools/cmip6_migration_request_lib.py:295-310 | returns and stores the counter plus one; a missing counter file is an error that changes nothing |
| RequestStore.Manager.MoveRequestFile | ceda_cmip6_tools/cmip6_migration_request_lib.py:279-287 | moves the file as `Renamed` says when it exists, and otherwise fails and changes nothing |
| RequestStore.Manager.Scan | ceda_cmip6_tools/cmip6_migration_request_lib.py:249-276 | succeeds iff every directory read exists and all its names parse; then the result is sorted by id and is exactly the kept requests |
| RequestStore.Manager.ScanDir | ceda_cmip6_tools/cmip6_migration_request_lib.py:262-273 | appends exactly the kept requests of one directory, or fails on an unparsable name |
| RequestStore.Manager.GetById | ceda_cmip6_tools/cmip6_migration_request_lib.py:242-246 | succeeds iff the scan finds exactly one request of that id, and returns it |
| RequestStore.Manager.Withdraw | ceda_cmip6_tools/cmip6_migration_request_lib.py:232-239 | passes iff the single matching request is NOT_STARTED, then moves it to WITHDRAWN; otherwise nothing changes |
| RequestStore.Manager.CreateRequest | ceda_cmip6_tools/cmip6_migration_request_lib.py:313-322 | takes id counter+1, names the file from login, id and date, and leaves it in NOT_STARTED with its payload |
| RequestStore.Request.constructor | ceda_cmip6_tools/cmip6_migration_request_lib.py:31-39 | the request holds its file name, manager, status and id |
| RequestStore.Request.Write | ceda_cmip6_tools/cmip6_migration_request_lib.py:74-80 | only a CREATING request is written, into the CREATING directory; otherwise an error |
| RequestStore.Request.SetStatus | ceda_cmip6_tools/cmip6_migration_request_lib.py:62-65 | moves the file and then records the new status; a failed move changes nothing |
| RequestStore.Request.Create | ceda_cmip6_tools/cmip6_migration_request_lib.py:42-44 | writes under CREATING and then leaves the request in NOT_STARTED |
| RequestStore.Request.Read | ceda_cmip6_tools/cmip6_migration_request_lib.py:47-53 | returns the decoded content of the request's file, of the manager's kind |
| PermBits.StrBits | ceda_mip_tools/permissions_checker.py:31-40 | the value is the OR of `r=4`, `w=2`, `x=1`: each bit is set iff its letter occurs; any other character is the `ValueError` |
| PermBits.PermStrToInt | ceda_mip_tools/permissions_checker.py:33-40 | the loop computes `StrBits` |
| PermBits.PermIntToStr | ceda_mip_tools/permissions_checker.py:43-48 | the loop writes the set bits' letters in `rwx` order |
| PermBits.PermRoundTrip | ceda_mip_tools/permissions_checker.py:33-48 | reading back the letters written for any value 0..7 gives the value; likewise in `ceda_cmip6_tools/permissions_checker.py:31-48` |
| PermBits.PermOrderFree | ceda_mip_tools/permissions_checker.py:33-40 | order and repetition of letters do not matter |
| PermBits.PermCanonical | ceda_mip_tools/permissions_checker.py:33-48 | writing the value of an access string gives its letters once each |
| UnixFs.SelectPerm | ceda_mip_tools/permissions_checker.py:121-130 | owner bits if the uid matches, else group bits if the file's group is one of the user's, else world bits |
| UnixFs.MissingLetter | ceda_mip_tools/permissions_checker.py:132 | a miss is exactly a requested letter whose bit is absent |
| UnixFs.AbsPathAbsolute | ceda_mip_tools/permissions_checker.py:51-55 | `_abs_path` from an absolute start is absolute |
| UnixFs.AbsPathChild | ceda_mip_tools/permissions_checker.py:51-55 | a clean relative name is joined below its clean start directory |
| UnixFs.ParentsAbsolute | ceda_mip_tools/permissions_checker.py:153-162 | the directories checked above an absolute path (parent, and the link target's parent) are absolute |
| UnixFs.VerdictFalseMeansMiss | ceda_mip_tools/permissions_checker.py:132-171 | the cache-free verdict is false iff the path misses its access or some directory checked above it is false |
| PermCommon.Normalize | ceda_mip_tools/permissions_checker.py:82-88 | a bad access is `BadAccess`; a value of another type always is |
| PermCommon.NormalizeAccess | ceda_mip_tools/permissions_checker.py:82-88 | the validation computes `Normalize` |
| PermCommon.StrIntAgree | ceda_mip_tools/permissions_checker.py:82-88 | a string access and the integer of the same bits are checked alike |
| PermCommon.IntRange | ceda_mip_tools/permissions_checker.py:82-84 | integers are accepted iff in 0..7, and as they are; likewise in `ceda_cmip6_tools/permissions_checker.py:74-80` |
| PermCommon.ExecuteString | ceda_mip_tools/permissions_checker.py:164-168 | the `"x"` used for directories is the execute bit |
| PermCommon.MessageTextFields | ceda_mip_tools/permissions_checker.py:134-142 | the message starts with `missing permissions:` and the path, holds the user and the wanted letters, and ends with the permission type and the current letters, `(none)` exactly when no bit is set; the letters read back to their bits |
| PermCommon.CurrentField | ceda_mip_tools/permissions_checker.py:138-142 | the current letters are empty exactly when no bit is set, so `or "(none)"` applies then only, and otherwise read back to the bits |
| PermCommon.BuildMessage | ceda_mip_tools/permissions_checker.py:134-142 | the message built from the letters the `_perm_int_to_str` loop writes is `MessageText`, whose fields `MessageTextFields` states |
| PermissionsChecker.Checker.constructor | ceda_mip_tools/permissions_checker.py:8-14 | the group ids are the primary group followed by the supplementary ones; the cache is empty |
| PermissionsChecker.Checker.ClearCache | ceda_mip_tools/permissions_checker.py:17-18 | the cache is empty |
| PermissionsChecker.Checker.CheckAccess | ceda_mip_tools/permissions_checker.py:82-106 | result, cache and logs are those of `CheckRun` |
| PermissionsChecker.Checker.CheckUncached | ceda_mip_tools/permissions_checker.py:109-171 | result, cache and logs are those of `UncachedRun` |
| PermissionsChecker.CheckGrows | ceda_mip_tools/permissions_checker.py:90-99 | a check never changes or drops a cache entry, and only appends to the lists |
| PermissionsChecker.CachedShortCut | ceda_mip_tools/permissions_checker.py:93-104 | a hit returns the stored result at once, raising for a negative one unless continuing on errors |
| PermissionsChecker.CheckModes | ceda_mip_tools/permissions_checker.py:101-151 | with `continue_on_error` no permission error raises; without it a check that returns returns true |
| PermissionsChecker.CheckSound | ceda_mip_tools/permissions_checker.py:82-171 | a cache that agrees with the cache-free verdict keeps agreeing, and a returned result is that verdict |
| PermissionsChecker.CheckComplete | ceda_mip_tools/permissions_checker.py:82-171 | when the verdict is reached within the depth, the check returns it (false only when continuing) |
| PermissionsChecker.ContinueIsVerdict | ceda_mip_tools/permissions_checker.py:132-171 | from an empty cache, continuing on errors, the check returns true iff no path on the way misses its permission |
| PermissionsChecker.StrictReturnsMeansGranted | ceda_mip_tools/permissions_checker.py:150-151 | without continuing, a returning check has found the whole path accessible |
| PermissionsChecker.MissRecordedFirst | ceda_mip_tools/permissions_checker.py:132-151 | a fresh miss appends its message and `(path, stat)` pair first |
| PermissionsChecker.RelativeKeyPerDirectory | ceda_mip_tools/permissions_checker.py:90-99 | the key is the absolute path, so a relative path is checked afresh from another working directory |
| LegacyPermissionsChecker.Checker.constructor | ceda_cmip6_tools/permissions_checker.py:8-14 | the group ids are the primary group followed by the supplementary ones; the cache is empty |
| LegacyPermissionsChecker.Checker.ClearCache | ceda_cmip6_tools/permissions_checker.py:17-18 | the cache is empty |
| LegacyPermissionsChecker.Checker.CheckAccess | ceda_cmip6_tools/permissions_checker.py:58-143 | result, cache and messages are those of `CheckRun` |
| LegacyPermissionsChecker.Checker.CheckFresh | ceda_cmip6_tools/permissions_checker.py:86-143 | result, cache and messages are those of `FreshRun` |
| LegacyPermissionsChecker.CheckGrows | ceda_cmip6_tools/permissions_checker.py:82-143 | a check never changes or drops a cache entry, and only appends messages |
| LegacyPermissionsChecker.HitReturnsStored | ceda_cmip6_tools/permissions_checker.py:82-84 | a hit on the path as given returns the stored result, even a negative one, without raising |
| LegacyPermissionsChecker.CheckModes | ceda_cmip6_tools/permissions_checker.py:119-137 | with a `messages` list no miss raises; without one, from a cache with no negative entry, the first miss raises |
| LegacyPermissionsChecker.CheckSound | ceda_cmip6_tools/permissions_checker.py:86-143 | from one working directory, the cache keeps agreeing with the cache-free verdict, and a returned result is that verdict |
| LegacyPermissionsChecker.CheckComplete | ceda_cmip6_tools/permissions_checker.py:86-143 | when the verdict is reached within the depth, the check returns it |
| LegacyPermissionsChecker.StaleRelativeKey | ceda_cmip6_tools/permissions_checker.py:82-89 | a relative path found missing from one directory is reported missing from another, although it is accessible there |
| Gws.DepthAbsolute | ceda_cmip6_tools/gws.py:15-25 | an accepted prefix is absolute and gives depth 4, 3 or 2 |
| Gws.GwsRootAsWritten | ceda_cmip6_tools/gws.py:27-37 | a root is returned iff the normalised path has at least depth−1 components and its first `depth` make an existing directory; it is that directory |
| Gws.ShallowRootAccepted | ceda_cmip6_tools/gws.py:29-32 | a path of three components under `/gws/` is returned as its own root |
| Gws.DotDotLeavesArea | ceda_cmip6_tools/gws.py:15-27 | `/gws/../x/...` passes the prefix test and yields a root outside `/gws` |
| Gws.GwsRootCheckedSpec | ceda_cmip6_tools/gws.py:8-37 | the corrected lookup returns a root iff the normalised path keeps its prefix and has `depth` components naming a directory |
| Gws.CheckedRefinesAsWritten | ceda_cmip6_tools/gws.py:8-37 | the corrected lookup never returns a root the code as written would not |
| DrsConfigs.ConfigsWellFormed | ceda_mip_tools/pub_sys_intfc/config.py:17-55 | every project table is usable by the plausibility test, and the CMIP6 tools' table (`ceda_cmip6_tools/config.py:9-19`) is the MIP tools' CMIP6 table |
| DatasetDrs.VersionNumberFacetSpec | ceda_mip_tools/pub_sys_intfc/dataset_drs.py:34-36 | without a newline, accepted iff `v` and one or more digits; a trailing newline is also accepted; no accepted facet holds `.` or `/` |
| DatasetDrs.DirFacets | ceda_mip_tools/pub_sys_intfc/dataset_drs.py:52-57 | at most `num_facets` facets, none holding `/` |
| DatasetDrs.DirToDatasetId | ceda_mip_tools/pub_sys_intfc/dataset_drs.py:47-62 | an id iff there are at least `num_facets` elements and the last ones are plausible |
| DatasetDrs.PlausibleIdOfFacets | ceda_mip_tools/pub_sys_intfc/dataset_drs.py:10-44 | dot-free plausible facets joined with dots split back into themselves and make a plausible id |
| DatasetDrs.DirIdRoundTrip | ceda_mip_tools/pub_sys_intfc/dataset_drs.py:39-62 | a directory's id, when no facet holds a dot, is plausible and splits into the facets |
| DatasetDrs.DirOfFacets | ceda_mip_tools/pub_sys_intfc/dataset_drs.py:47-62 | `/base/f1/.../fn` maps to `f1. ... .fn` iff its facets are plausible |
| Cmip6Drs.PlausibleFacetsSpec | ceda_cmip6_tools/dataset_drs.py:8-34 | exactly ten non-empty facets, `CMIP6` first, a known activity second, a version last |
| Cmip6Drs.DirToDatasetIdSpec | ceda_cmip6_tools/dataset_drs.py:45-59 | an id iff at least ten elements whose last ten are plausible; the id is their dotted join |
| Cmip6Drs.DirIdRoundTrip | ceda_cmip6_tools/dataset_drs.py:37-59 | a directory's id, when no facet holds a dot, is plausible with those facets |
| DatasetIdGetter.FormatDefined | ceda_mip_tools/restructure_for_cmip6/dataset_id_getter.py:34-39 | formatting succeeds iff every field of the template has a value |
| DatasetIdGetter.FieldTemplateSpec | ceda_mip_tools/restructure_for_cmip6/dataset_id_getter.py:45-47 | the fields of a template are its names in order; formatting joins their values |
| DatasetIdGetter.DatasetIdFormatFields | ceda_mip_tools/restructure_for_cmip6/config.py:7 | the id format's fields are the nine facets, and formatting joins their values with dots |
| DatasetIdGetter.FirstMatchSpec | ceda_mip_tools/restructure_for_cmip6/dataset_id_getter.py:59-65 | the groups come from the first matcher that accepts the name; none accepting is `CannotParse` |
| DatasetIdGetter.ParseFromFileName | ceda_mip_tools/restructure_for_cmip6/dataset_id_getter.py:59-65 | the loop computes `FirstMatch` |
| DatasetIdGetter.ContentsOf | ceda_mip_tools/restructure_for_cmip6/dataset_id_getter.py:68-76 | one entry per wanted facet: its attribute, or None |
| DatasetIdGetter.FacetValue | ceda_mip_tools/restructure_for_cmip6/dataset_id_getter.py:83-103 | the contents' value wins; a different file-name value, or no value at all, is an error; else the file-name value |
| DatasetIdGetter.FacetsSpec | ceda_mip_tools/restructure_for_cmip6/dataset_id_getter.py:78-104 | the facets hold exactly the wanted names, each with its settled value; they fail iff some name fails, with the first failure |
| DatasetIdGetter.FacetsSucceed | ceda_mip_tools/restructure_for_cmip6/dataset_id_getter.py:78-104 | settling the facets succeeds iff every wanted name settles |
| DatasetIdGetter.FacetsValues | ceda_mip_tools/restructure_for_cmip6/dataset_id_getter.py:78-104 | on success the keys are those already collected plus every wanted name; each wanted name holds its settled value and the others keep theirs |
| DatasetIdGetter.FacetsFirstFailure | ceda_mip_tools/restructure_for_cmip6/dataset_id_getter.py:78-104 | on failure the error is that of the first name that does not settle |
| DatasetIdGetter.GetFacets | ceda_mip_tools/restructure_for_cmip6/dataset_id_getter.py:78-104 | the loop computes `Facets` |
| DatasetIdGetter.Getter.constructor | ceda_mip_tools/restructure_for_cmip6/dataset_id_getter.py:19-29 | the version is the argument when given, else today's date |
| DatasetIdGetter.Getter.GetDatasetId | ceda_mip_tools/restructure_for_cmip6/dataset_id_getter.py:34-39 | an explicit version overrides the one fixed at construction |
| DatasetIdGetter.VersionedIdPlausible | ceda_mip_tools/restructure_for_cmip6/dataset_id_getter.py:34-39 | nine suitable values plus `.v<version>` form a plausible CMIP6 id |
| DatasetIdGetter.IdIsPlausible | ceda_mip_tools/restructure_for_cmip6/dataset_id_getter.py:34-39 | an id built from suitable settled facets is a plausible CMIP6 id |
| DatasetIdGetter.FacetValuesPlausible | ceda_mip_tools/restructure_for_cmip6/dataset_id_getter.py:34-39 | the nine facets present, non-empty and dot-free, CMIP6 with a known activity, plus a version, give a plausible id |
| Restructure.AddToFileSet | ceda_mip_tools/restructure_for_cmip6/restructure_for_cmip6.py:71-74 | the file is in the set, which grew by at most it; the warning is given iff it was there |
| Restructure.FileSet.Add | ceda_mip_tools/restructure_for_cmip6/restructure_for_cmip6.py:71-74 | the set and warning are those of `AddToFileSet` |
| Restructure.OutputDirShape | ceda_mip_tools/restructure_for_cmip6/restructure_for_cmip6.py:93-95 | each piece of a clean id becomes one directory level below the base |
| Restructure.OutputDirInjective | ceda_mip_tools/restructure_for_cmip6/restructure_for_cmip6.py:93-95 | distinct clean ids get distinct output directories |
| Restructure.OutputDirRoundTrip | ceda_mip_tools/restructure_for_cmip6/restructure_for_cmip6.py:93-95 | the output directory of a plausible id maps back to the id |
| Restructure.Dedup | ceda_mip_tools/restructure_for_cmip6/restructure_for_cmip6.py:155 | no repeats and the same elements |
| Restructure.GetDatasetDirs | ceda_mip_tools/restructure_for_cmip6/restructure_for_cmip6.py:151-165 | sorted directories, one per distinct id, each a file's output directory; every file maps to its own; the map's values are the directories |
| Restructure.DatasetDirsDistinct | ceda_mip_tools/restructure_for_cmip6/restructure_for_cmip6.py:151-165 | with clean ids the directory list has no repeats |
| Restructure.ParentOf | ceda_mip_tools/restructure_for_cmip6/restructure_for_cmip6.py:118-125 | the parent is never empty: `dirname`, or `.` for a bare name |
| Restructure.CheckWritePermissions | ceda_mip_tools/restructure_for_cmip6/restructure_for_cmip6.py:118-125 | passes iff every parent is writable; otherwise names a non-writable parent |
| Restructure.StatDevCache.StatDevWithCache | ceda_mip_tools/restructure_for_cmip6/restructure_for_cmip6.py:128-131 | a path's device number is looked up at most once and the same value returned afterwards |
| Restructure.MakeDirs | ceda_mip_tools/restructure_for_cmip6/restructure_for_cmip6.py:106 | `makedirs` keeps every entry and adds only directories, including the target |
| Restructure.CreateDirsSpec | ceda_mip_tools/restructure_for_cmip6/restructure_for_cmip6.py:98-106 | only directories are added; on success every wanted directory is a directory |
| Restructure.CreateDirsRefusesNonEmpty | ceda_mip_tools/restructure_for_cmip6/restructure_for_cmip6.py:98-106 | without merge, an existing non-empty directory stops it before any change |
| Restructure.CreateDirsMerging | ceda_mip_tools/restructure_for_cmip6/restructure_for_cmip6.py:98-106 | with merge and nothing but directories in the way, it passes |
| Restructure.Disk.CreateOutputDirs | ceda_mip_tools/restructure_for_cmip6/restructure_for_cmip6.py:98-106 | outcome and file system are those of `CreateDirs` |
| Restructure.RenamesPlaced | ceda_mip_tools/restructure_for_cmip6/restructure_for_cmip6.py:144-148 | with distinct targets, every file ends at `dir/basename` with its content and is gone from its old place |
| Restructure.RenamesKeep | ceda_mip_tools/restructure_for_cmip6/restructure_for_cmip6.py:144-148 | an entry that is no source and no target is untouched |
| Restructure.RenamesKeepAbsent | ceda_mip_tools/restructure_for_cmip6/restructure_for_cmip6.py:144-148 | no entry appears that is not a target |
| Restructure.SortedKeys | ceda_mip_tools/restructure_for_cmip6/restructure_for_cmip6.py:145 | the keys, sorted and without repeats |
| Restructure.RenamesNeedParents | ceda_mip_tools/restructure_for_cmip6/restructure_for_cmip6.py:144-148 | a passing run means the directory of every target already existed as a directory; `os.rename` fails into a missing directory or a file |
| Restructure.Disk.DoRenames | ceda_mip_tools/restructure_for_cmip6/restructure_for_cmip6.py:144-148 | the files are moved in sorted order, as `Renames` says; each move fails on a missing source, on a target directory that is missing or is a file, and on a directory as target |
| StatusCommon.CheckArgs | ceda_mip_tools/pub_sys_intfc/mip_dataset_status.py:54-70 | passes iff the status is a choice and exactly one of specifiers and status is given; likewise in `ceda_cmip6_tools/cmip6_dataset_status.py:62-67` |
| StatusCommon.ChoicesAreGiven | ceda_mip_tools/pub_sys_intfc/mip_dataset_status.py:15 | every status choice counts as given |
| StatusCommon.GetDatasetIdCases | ceda_mip_tools/pub_sys_intfc/mip_dataset_status.py:75-92 | `/` → directory id or error; else `*` → error; else plausible → unchanged; else error; likewise in `ceda_cmip6_tools/cmip6_dataset_status.py:72-89` |
| StatusCommon.GetDatasetIdPlausible | ceda_mip_tools/pub_sys_intfc/mip_dataset_status.py:75-92 | an id returned is plausible (for a directory, when its facets hold no dot) |
| StatusCommon.GetDatasetIdsSpec | ceda_mip_tools/pub_sys_intfc/mip_dataset_status.py:95-96 | one id per specifier, in order, or the first specifier's error |
| StatusCommon.AllSucceedSpec | ceda_mip_tools/pub_sys_intfc/mip_dataset_status.py:95-96 | a list comprehension whose elements may raise succeeds iff every element does; then it holds every value in order, and otherwise the first failure |
| StatusCommon.StatusQuery | ceda_mip_tools/pub_sys_intfc/mip_dataset_status.py:131-138 | `dataset_id` is `**`; no status iff `ALL`; likewise in `ceda_cmip6_tools/cmip6_dataset_status.py:115-121` |
| StatusCommon.Rows | ceda_mip_tools/pub_sys_intfc/mip_dataset_status.py:213-215 | the results in order, numbered from 1 |
| StatusCommon.RowsNumbered | ceda_cmip6_tools/cmip6_dataset_status.py:175-177 | numbers run from 1 to n without gaps |
| StatusCommon.JsonKeysOfHeaders | ceda_mip_tools/pub_sys_intfc/mip_dataset_status.py:254 | the header keys are `count`, `dataset_id` and `status` |
| StatusCommon.RowObject | ceda_mip_tools/pub_sys_intfc/mip_dataset_status.py:254-258 | exactly those three keys, with the row's number, id and status |
| StatusCommon.ResultsWriter.constructor | ceda_mip_tools/pub_sys_intfc/mip_dataset_status.py:207-209 | holds the results; overwriting is off |
| StatusCommon.ResultsWriter.AllowOverwrite | ceda_mip_tools/pub_sys_intfc/mip_dataset_status.py:231-232 | sets the overwrite flag only |
| StatusCommon.ResultsWriter.WriteTarget | ceda_mip_tools/pub_sys_intfc/mip_dataset_status.py:234-240 | `-` is standard output; an existing file is refused iff overwriting is off |
| StatusCommon.ResultsWriter.JsonDocument | ceda_mip_tools/pub_sys_intfc/mip_dataset_status.py:251-262 | one object per row in order; `num_found` is their number; likewise in `ceda_cmip6_tools/cmip6_dataset_status.py:213-224` |
| StatusCommon.ResultsWriter.WriteJson | ceda_mip_tools/pub_sys_intfc/mip_dataset_status.py:251-262 | the document and its target, or the refusal to overwrite |
| MipDatasetStatus.ResultsDictSpec | ceda_mip_tools/pub_sys_intfc/mip_dataset_status.py:115 | the dictionary holds exactly the listed ids, each with the status of its last entry |
| MipDatasetStatus.PageQuery | ceda_mip_tools/pub_sys_intfc/mip_dataset_status.py:102-106 | ids joined with commas, `max_items` their number |
| MipDatasetStatus.StatusesPageSpec | ceda_mip_tools/pub_sys_intfc/mip_dataset_status.py:113-118 | fails iff the count does not match; else one pair per id in order, with its last status or `UNKNOWN` |
| MipDatasetStatus.GetDatasetStatusesOrder | ceda_mip_tools/pub_sys_intfc/mip_dataset_status.py:121-125 | one pair per id of the pages taken in order |
| MipDatasetStatus.CollectPrefix | ceda_mip_tools/pub_sys_intfc/mip_dataset_status.py:143-148 | the pages' datasets are appended in order |
| MipDatasetStatus.SinglePage | ceda_mip_tools/pub_sys_intfc/mip_dataset_status.py:150-156 | a response without a cursor ends the loop |
| MipDatasetStatus.RepeatedCursorStops | ceda_mip_tools/pub_sys_intfc/mip_dataset_status.py:150-153 | a response repeating the cursor it was sent fails the assertion |
| MipDatasetStatus.AlternatingCursorsNeverStop | ceda_mip_tools/pub_sys_intfc/mip_dataset_status.py:150-154 | two alternating cursors are never caught |
| MipDatasetStatus.GetResultsForStatus | ceda_mip_tools/pub_sys_intfc/mip_dataset_status.py:128-156 | the loop computes `Collect` from the status query |
| Cmip6DatasetStatus.IdQuery | ceda_cmip6_tools/cmip6_dataset_status.py:100-103 | the query names the one id, with no status and no cursor |
| Cmip6DatasetStatus.DatasetStatus | ceda_cmip6_tools/cmip6_dataset_status.py:97-108 | None unless exactly one found, then the first status; an empty list is the index error |
| Cmip6DatasetStatus.StatusOrUnknown | ceda_cmip6_tools/cmip6_dataset_status.py:146-147 | a missing or empty status is `UNKNOWN`, any other kept |
| Cmip6DatasetStatus.StatusesForSpec | ceda_cmip6_tools/cmip6_dataset_status.py:145-147 | one pair per id in order, each with its own status or `UNKNOWN`; fails iff some lookup fails |
| Cmip6DatasetStatus.FirstPageOfCursorLoop | ceda_cmip6_tools/cmip6_dataset_status.py:111-125 | this tool's single page equals the cursor loop without a cursor, and is a prefix of it otherwise |
| Cmip6DatasetStatus.Cmip6Classification | ceda_cmip6_tools/cmip6_dataset_status.py:72-89 | a plain specifier is accepted iff it is a plausible CMIP6 id |
| Cmip6DatasetStatus.RunSpec | ceda_cmip6_tools/cmip6_dataset_status.py:135-149 | with specifiers, one result per specifier in order, each its identifier with that identifier's status or `UNKNOWN`; with a status, the response's datasets |

## Left out

- Argument parsing, `run`/`main` glue, printing, `dump`, `__str__` and CSV output are not modelled. They do no checkable logic beyond the argument checks, which are modelled.
- The HTTP calls (`util.do_post_expecting_json`, the adders' `_add_dataset_dir`) become the `Api` function parameter from query to response. The `chain`, `configuration` and `requester` fields of a query are not modelled.
- `util.paginate_list` is not part of this model: `MipDatasetStatus.GetDatasetStatuses` takes the pages as a parameter.
- MipDatasetStatus.Collect: bounded by `fuel`, because the number of pages is decided by the server. A run out of fuel is the `OutOfPages` error, which the source does not have.
- The `os.walk` tree walks (`_get_paths`, the adders' walks), `_write_output` and `_check_same_filesystem` are not modelled. They are traversal and I/O around the modelled checks.
- `pwd`/`grp` lookups, `os.getcwd`, `os.environ`, `os.path.isdir`, `os.access` and `datetime.date.today()` are parameters: uid and gids, `cwd`, `testGws`, `dirs`, `writable`, `today`. The login name is one too.
- `os.stat` and `os.readlink` are a map from path to stat and link target. A path missing from the map stands for a stat that raises.
- PermissionsChecker.CheckRun: bounded by `fuel` for Python's recursion limit. The code itself does not terminate on a cycle of directory links, and the cache is written only after the nested calls return.
- LegacyPermissionsChecker.CheckRun: bounded by `fuel` in the same way.
- The `messages` and `permissions` lists, which the source appends to in place, are values that the methods return extended.
- The netCDF attribute reading and the compiled file-name regular expressions are abstract: a map of attributes, and an ordered list of partial matchers.
- DatasetIdGetter.Format: models only templates whose fields are plain names. It does not model format specs, conversions or `{{` escapes, which the configured templates do not use.
- DatasetDrs.IsVersionNumberFacet: follows `re.match` with `$`, so one trailing newline is accepted as the source accepts it.
- RequestNames.ValidDate: a range predicate for the Gregorian calendar. An invalid date raises `ValueError` from `datetime`, not `BadFileName`; the model reports both as a parse failure.
- StatusCommon.GetDatasetIdPlausible: requires that no facet of a directory holds a dot. Without that, the directory's id need not be plausible, as the code allows.
- Restructure.MakeDirs: does not model `makedirs` raising on a file in the way of an ancestor, or on permissions.
- Restructure.Renames: a rename is one atomic map update of a single entry. Directories are never moved, and aliasing through links is not modelled.
- Restructure.StatDevCache.StatDevWithCache: the device number is a parameter standing for what `os.stat` would give at that moment.
- The request counter's read-increment-write and the renames are modelled as sequential and atomic. Concurrency between processes is not modelled.
- RequestStore.Request.constructor: does not model the constructor variant that re-parses the file name.
- RequestStore.Request.Write: does not model the `os.chmod` to mode 0o644 of the written file. File modes are not part of the store's state.
- RequestStore.Manager.Initialise: does not model the `os.chmod` calls, which set mode 0o1777 on each status directory and 0o666 on the counter file.
- Restructure.GetDatasetDirs: takes the id getter as a total function. A getter that raises inside `_get_dataset_dirs`, which stops the restructure before any directory is made, is not modelled.
- DatasetIdGetter.Getter.constructor: takes the version as an optional integer. It does not model `int(version)` raising `ValueError` on a string that is not a number.
- The broken entry points (`list_cmip6_requests.py`, `list_requests.py`, `init_migrations.py`, `withdraw_cmip6_retrieval_request.py`), `setup.py` and `util.get_user_name` are not part of this model.

## Findings

| source | as written | input that shows it | evidently intended | confidence | as-written member | corrected member |
|---|---|---|---|---|---|---|
| ceda_cmip6_tools/gws.py:29 | `len(elements) < depth` lets through one element fewer than a root has | `/gws/a/b` with `/gws/a/b` an existing directory is returned as its own root | the workspace root four levels down (`len(elements) <= depth` rejected) | high, not executed | Gws.ShallowRootAccepted | Gws.GwsRootCheckedSpec |
| ceda_cmip6_tools/gws.py:15-27 | the prefix is tested on the raw path, before `normpath` | `/gws/../a/b/c/d` is classified as `/gws/` and yields root `/a/b/c/d` | the prefix tested on the normalised path | medium, not executed | Gws.DotDotLeavesArea | Gws.GwsRootCheckedSpec |
| ceda_cmip6_tools/permissions_checker.py:82-89 | the cache key is the path as given, before it is made absolute | relative `f` denied from cwd `/a`, then asked from cwd `/b` where `/b/f` is readable: the stored False is returned | the key on the absolute path, as `ceda_mip_tools/permissions_checker.py:90-93` does | high, not executed | LegacyPermissionsChecker.StaleRelativeKey | PermissionsChecker.RelativeKeyPerDirectory |
