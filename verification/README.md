# SolarSPELL DLMS: content management and library build, modelled in Dafny

SolarSPELL's digital library management system keeps a catalogue of content
items (files with a title, description, copyright, rights statement and
metadata of several metadata types). It arranges those items into library
versions (trees of folders) and exports a version as a library database. The
Django back end and the React front end share the logic modelled here.

**Back end**
- `build_library` selects the rows of a version export.
- `upload_sheet_contents` and `get_associated_meta` drive the bulk import from a spreadsheet.
- The models fix the storage paths of content files and layout images, and the display strings.
- `build_response` and the exception handler produce the response envelope.

**Front end**
- Field validators and `get_metadata`.
- The query-parameter builder `CONTENT_PAGE` and the envelope consumer `get_data`.
- The content-list and folder-navigation state of `GlobalState`, and its twin `ContentsProvider`.
- The metadata and library-asset providers.
- The content add/edit form.

Modules follow the source files:

| module | file(s) |
|---|---|
| `LibraryBuild` | library_build.dfy: the store and the export row sets |
| `SheetImport` | sheet_import.dfy: bulk import |
| `Models` | models.dfy |
| `StandardizeFormat` | standardize_format.dfy |
| `Validators`, `Lookup`, `Urls` | validators.dfy, lookup.dfy, urls.dfy |
| `ContentSearch` | content_search.dfy: the content-list logic `GlobalState` and `ContentsProvider` share |
| `GlobalState`, `ContentsProvider` | global_state.dfy, contents_provider.dfy |
| `MetadataProvider`, `LibAssetsProvider`, `Providers` | metadata_provider.dfy, lib_assets_provider.dfy, providers.dfy |
| `ContentModal` | content_modal.dfy |
| `Common`, `Text`, `Seqs`, `Json`, `Grouping`, `FrontendTypes` | shared helpers: option type, string split and join, filtering, JSON values, grouping, wire types |

Modelling choices:

- **Values and state.** Pure computations are functions. State that the source updates in place is a class: `Content`, the framework `Response`, `GlobalState`, `ContentsProvider`, the two providers and `ContentModal`. Each class's methods are proved against specification functions.
- **Outside effects are inputs.**
  - File-system and database outcomes of the import form an `Io` record of oracles.
  - Request results arrive as method arguments (`Fetched`, rows, timestamps).
  - The clock and the current year are parameters.
  - `parseInt` is an abstract partial parse.
  - Date formatting is a function parameter.
- **JSON values.** They are modelled with JavaScript's distinction between `undefined` and `null`. An object is a list of entries in which a later duplicate key wins.
- **JavaScript exceptions.** A path that throws in JavaScript is an explicit `None` or error result:
  - a parent cycle overflowing the stack in `build_path`;
  - `Object.values(null)`;
  - reading `id` of a missing row.
- **Behaviour of the code kept as it is.**
  - `build_library` never checks that the version exists. It always answers `'success'`, and an unknown version selects empty row sets.
  - `build_library` relativizes the file path by dropping a fixed 9 characters (`Substr('content_file', 10)`), whatever storage root is configured.
  - `ContentsProvider.add_selected_to_folder` does not skip indices without a loaded row: reading the missing row's `id` throws. `GlobalState` skips them.

## Model

| member | source | states |
|---|---|---|
| LibraryBuild.Relativize | content_management/utils.py:137 | `Substr(content_file, 10)` drops exactly the first 9 characters; shorter paths become empty |
| LibraryBuild.MetadataTypeRows | content_management/utils.py:125-126 | a row is exported exactly when it carries the id and name of a stored metadata type on the version's whitelist |
| LibraryBuild.MetadataRows | content_management/utils.py:127-130 | a row is exported exactly when it carries the id, name, type name and type id of a metadata whose type is whitelisted and which is attached to a content in a folder of the version |
| LibraryBuild.FolderRows | content_management/utils.py:131-132 | the folder rows are exactly the version's folders, parent id copied unchanged |
| LibraryBuild.ModuleRows | content_management/utils.py:133-134 | the module rows are exactly the modules associated with the version |
| LibraryBuild.ContentRows | content_management/utils.py:135-142 | the content rows are exactly the contents of the version's folders, with the path relativized |
| LibraryBuild.ContentMetadataRows | content_management/utils.py:143-144 | the edges are exactly the metadata edges of contents in the version's folders, with no type filter |
| LibraryBuild.MetadataRowsDistinct | content_management/utils.py:127-130 | exported metadata rows are distinct by id |
| LibraryBuild.ContentRowsDistinct | content_management/utils.py:135-142 | exported content rows are distinct by id |
| LibraryBuild.FolderParentsExported | content_management/utils.py:131-132 | provided every folder's parent lies in the same version (`ParentsInSameVersion`, which the client keeps by creating a child in its parent's version), every exported parent id names an exported folder |
| LibraryBuild.ParentMayLieInAnotherVersion | content_management/models.py:81-82 | the schema lets a folder's parent lie in another version; the export then names a parent it does not contain |
| LibraryBuild.EdgesReferenceExportedContents | content_management/utils.py:143-144 | every exported edge names an exported content |
| LibraryBuild.EmptyWhitelistExportsNoMetadata | content_management/utils.py:125-130 | without whitelisted types, no metadata types or metadata rows are exported |
| LibraryBuild.ExportedPathIsFileName | content_management/utils.py:137 | a content stored through `set_file_name` is exported with its plain file name as path |
| LibraryBuild.EdgeMayOutliveWhitelist | content_management/utils.py:143-144 | an edge can reference a metadata absent from the metadata rows |
| SheetImport.Cell | content_management/utils.py:103 | `row.get(key)` reads an absent column as `None`, a present one as its value, and never yields `undefined` |
| SheetImport.CellMetadata | content_management/utils.py:103-108 | an absent, null or empty cell contributes nothing; a non-string cell raises; otherwise every piece is of that type |
| SheetImport.GetAssociatedMeta | content_management/utils.py:100-109 | the nested loop computes the row's metadata, type by type, piece by piece |
| SheetImport.AppendTagged | content_management/utils.py:106-108 | the inner loop appends one value of the column's type per piece, in order |
| SheetImport.AssociatedMetaPrefixFails | content_management/utils.py:102-108 | once a column raises, the whole row's metadata raises |
| SheetImport.AssociatedMetaTypes | content_management/utils.py:102-108 | every value read is of a listed type |
| SheetImport.ValuesOfType | content_management/utils.py:102-108 | the values of type k are exactly what that type's column contributes: output is ordered by type, then by piece |
| SheetImport.ColumnRoundTrip | content_management/utils.py:105 | a column's pieces joined with `' \| '` give back the cell; no pieces exactly when the cell is blank |
| SheetImport.AssociatedMetaRoundTrip | content_management/utils.py:102-108 | each type's cell is recovered from the row's metadata of that type |
| SheetImport.PublishedDateOf | content_management/utils.py:52-56 | a falsy year leaves the date unset; a year in 1..9999 gives January 1; another machine-size integer clears it; a truthy value that is neither an integer nor a boolean raises |
| SheetImport.SheetItems | content_management/utils.py:35-37 | an array iterates its elements; only arrays, objects and strings can be iterated |
| SheetImport.ProcessRow | content_management/utils.py:37-84 | a missing file is reported as `'file does not exist'`; a row is stored exactly when every step succeeds; a failure carries the row's file name; a stored row's review and modification times are the clock readings taken for it |
| SheetImport.Outcomes | content_management/utils.py:37 | one outcome per row, in order |
| SheetImport.AbortIsFinal | content_management/utils.py:91-97 | after an exception escapes the rows, later rows change neither the report nor the store |
| SheetImport.ReportAccountsForEveryRow | content_management/utils.py:78-89 | on normal return, successes plus failures equal the row count |
| SheetImport.FailuresOf | content_management/utils.py:82-84 | the failures are at most the rows |
| SheetImport.StoredAreTheSuccesses | content_management/utils.py:61-81 | on normal return, the store keeps exactly the uploaded rows; a row failing after its save is deleted |
| SheetImport.StoredKeysAndValues | content_management/utils.py:61-81 | on normal return, a row number is stored exactly when that row was uploaded, with the content it built |
| SheetImport.StoredKeysBelow | content_management/utils.py:37-84 | only rows of the sheet are stored |
| SheetImport.ImportRow | content_management/utils.py:39-84 | importing a row yields its outcome and stores the content only when it was uploaded |
| SheetImport.UploadSheetContents | content_management/utils.py:26-97 | the loop's report and store equal those of the row outcomes; a parse failure is a server error |
| Models.ContentUploadPath | content_management/models.py:23-25 | a relative file name is stored under `contents/` |
| Models.Content.SetFileName | content_management/models.py:23-25 | records the file name and returns its upload path |
| Models.GetFolderName | content_management/models.py:47-53 | groups 1, 2 and 3 map to `images/logos`, `images/banners` and `images/libversions`; any other group gives None |
| Models.GetFolderNameInjective | content_management/models.py:47-53 | different groups store the same file under different paths |
| Models.MetadataString | content_management/models.py:18-19 | `[type]name`, character by character |
| Models.LibraryVersionString | content_management/models.py:73-74 | `[library_name]version_number`, character by character |
| Models.BracketedRoundTrip | content_management/models.py:18-19 | a display string whose head has no `]` parses back into its two parts |
| StandardizeFormat.BuildResponse | content_management/standardize_format.py:18-27 | the body has exactly the keys success, data and error, holding the arguments, with the given status |
| StandardizeFormat.BuildResponseDefaults | content_management/standardize_format.py:18 | defaults: status 200, success true, data and error None |
| StandardizeFormat.ErrorEnvelope | content_management/standardize_format.py:12-14 | the replacement body has data None, error the previous body, success false |
| StandardizeFormat.StandardExceptionHandler | content_management/standardize_format.py:7-16 | rewrites the framework response's body in place and returns it; None stays None |
| Validators.Year | frontend/src/js/validators.ts:2-11 | `""` exactly when the parsed year is in [1000, current year], else `"Invalid Year"` |
| Validators.Metadata | frontend/src/js/validators.ts:12-14 | always `""` |
| Validators.Title | frontend/src/js/validators.ts:15-23 | empty is required; over 300 too long; `""` exactly for 1..300 characters |
| Validators.Description | frontend/src/js/validators.ts:24-29 | required, else `""` |
| Validators.File | frontend/src/js/validators.ts:30-38 | no file is required; a name over 300 is too long; else `""` |
| Validators.Copyright | frontend/src/js/validators.ts:39-44 | `""` exactly below 500 characters |
| Validators.RightsStatement | frontend/src/js/validators.ts:45-47 | always `""` |
| Validators.Boundaries | frontend/src/js/validators.ts:15-44 | a 300-character title and a 499-character copyright pass; 500 characters fail |
| Lookup.GetMetadata | frontend/src/js/utils.ts:6-9 | the lowest-index element with the id; None exactly when no element has it |
| Urls.KeyNames | frontend/src/js/urls.tsx:18-38 | every query key's name reads back as that key; file_sizes, reviewed_on, duplicatable and sort are no key |
| Urls.Push | frontend/src/js/urls.tsx:27-35 | a conditional push only extends the list |
| Urls.PushLookup | frontend/src/js/urls.tsx:27-35 | after a push the key is found with its value; other keys as before |
| Urls.PushOrdered | frontend/src/js/urls.tsx:27-35 | a push whose key ranks above all keys so far keeps rank order |
| Urls.OrderedIncreasing | frontend/src/js/urls.tsx:23-35 | rank order means strictly increasing ranks, so no key twice |
| Urls.BaseParamsFacts | frontend/src/js/urls.tsx:23 | the list starts as page then size, in rank order, each found with its number |
| Urls.PushAllOrdered | frontend/src/js/urls.tsx:27-35 | the six pushes keep rank order after page and size |
| Urls.PushAllLookup | frontend/src/js/urls.tsx:27-35 | a key pushed by the filters is found with the pushed value, any other key as before |
| Urls.ContentPageOrdered | frontend/src/js/urls.tsx:18-38 | the parameters are in rank order |
| Urls.ContentPageShape | frontend/src/js/urls.tsx:23 | page and size are the first two parameters, in that order; no key repeats |
| Urls.ContentPageLookups | frontend/src/js/urls.tsx:27-35 | title and copyright iff non-empty; years iff defined, as `from,to`; file_name whenever defined; active iff defined; metadata iff non-empty |
| Urls.ContentPageLookup | frontend/src/js/urls.tsx:27-35 | each filter key carries the value its filter prescribes |
| Urls.ContentPage | frontend/src/js/urls.tsx:18-38 | the successive pushes build exactly the specified parameter list |
| Urls.GetData | frontend/src/js/urls.tsx:49-56 | resolves with `data` when `success` is true, rejects with `error` otherwise; HTTP failures reject with the response |
| Urls.GetDataUnwrapsEnvelope | frontend/src/js/urls.tsx:49-56 | a 2xx envelope from `build_response` resolves to its data or rejects with its error |
| Urls.GetDataOfHandledException | frontend/src/js/urls.tsx:49-56 | a body rewritten by the exception handler never resolves |
| ContentSearch.NormalizeRange | frontend/src/js/context/global_state.tsx:242-250 | a range is dropped exactly when both bounds are set and from >= to; otherwise it is [from, to] |
| ContentSearch.ActiveFilter | frontend/src/js/context/global_state.tsx:233-237 | all gives no filter, active true, inactive false |
| ContentSearch.DuplicatableFilter | frontend/src/js/context/global_state.tsx:252-266 | all gives no filter, duplicatable true, not duplicatable false |
| ContentSearch.Ids | frontend/src/js/context/global_state.tsx:259-261 | the ids of a list of metadata, in order |
| ContentSearch.FlattenMetadataMembers | frontend/src/js/context/global_state.tsx:259-261 | an id is sent exactly when some bucket holds a metadata with it |
| ContentSearch.FlattenMetadataEmpty | frontend/src/js/context/global_state.tsx:259-261 | the flattened list has the buckets' total length; empty exactly when every bucket is |
| ContentSearch.SortParam | frontend/src/js/context/contents_provider.tsx:103 | `column,direction` of the first sorting, undefined when there is none |
| ContentSearch.BuildFilters | frontend/src/js/context/contents_provider.tsx:91-104 | the filters object carries the normalized ranges, the flattened metadata, the active flag and the sort |
| ContentSearch.SearchQuery | frontend/src/js/context/global_state.tsx:252-266 | what a search form puts on the query string, key by key |
| ContentSearch.Names | frontend/src/js/context/global_state.tsx:281-292 | the names of a list of metadata, in order |
| ContentSearch.NamesOfTypeIsFilter | frontend/src/js/context/global_state.tsx:281-292 | a column lists the names of exactly the row's metadata of that type, in order |
| ContentSearch.ColumnOfAbsentType | frontend/src/js/context/global_state.tsx:281-292 | a known type with no metadata in the row shows `""` |
| ContentSearch.ColumnOfSingleType | frontend/src/js/context/global_state.tsx:281-292 | a type with one metadata in the row shows its name |
| ContentSearch.NamesOfTypeSnoc | frontend/src/js/context/global_state.tsx:283-289 | one more metadata extends only its own type's list |
| ContentSearch.ListsForSnoc | frontend/src/js/context/global_state.tsx:283-289 | appending a metadata keeps the lists right for one more element |
| ContentSearch.CollectNames | frontend/src/js/context/global_state.tsx:283-289 | the append loop builds each listed type's name list |
| ContentSearch.DisplayColumns | frontend/src/js/context/global_state.tsx:281-292 | each listed type name maps to the `", "`-join of the row's names of that type |
| ContentSearch.DisplayRows | frontend/src/js/context/global_state.tsx:281-292 | one display row per received row, in order, each with its columns |
| ContentSearch.MakeDisplayRows | frontend/src/js/context/contents_provider.tsx:114-127 | the map over the rows builds the display rows |
| ContentSearch.SettleShowsLatest | frontend/src/js/context/global_state.tsx:276 | in any arrival order, the shown timestamp is the latest one and never decreases |
| ContentSearch.SelectedIdsMembers | frontend/src/js/context/global_state.tsx:219-221 | an id is sent exactly when a selected index holds a loaded row with it; missing rows are skipped |
| ContentSearch.SelectedIdsStrict | frontend/src/js/context/contents_provider.tsx:62-65 | one id per selected index; None when an index has no row |
| ContentSearch.SelectedIdsAgree | frontend/src/js/context/contents_provider.tsx:62-65 | the strict mapping throws exactly when an index is out of range; otherwise both versions agree |
| GlobalState.TypeNames | frontend/src/js/context/global_state.tsx:281-292 | the type names, in order |
| GlobalState.FindFolder | frontend/src/js/context/global_state.tsx:558-564 | the folder found has the id; None exactly when no folder has it (null matches none) |
| GlobalState.BuildPath | frontend/src/js/context/global_state.tsx:558-564 | the chain extends the start, follows parent links, and ends where the parent is not found |
| GlobalState.BuildPathAcyclic | frontend/src/js/context/global_state.tsx:558-564 | with acyclic parent links the path is always built |
| GlobalState.FolderNames | frontend/src/js/context/global_state.tsx:566 | the folder names of a chain, in order |
| GlobalState.PathStringEnds | frontend/src/js/context/global_state.tsx:555-566 | the `"/"`-joined path starts with the folder's own name and ends with its topmost ancestor's |
| GlobalState.FolderPaths | frontend/src/js/context/global_state.tsx:552-569 | every folder paired with its path string; None when some chain is cyclic |
| GlobalState.SliceEnd | frontend/src/js/context/global_state.tsx:630 | `slice(0, end)` never goes past the length |
| GlobalState.NextPath | frontend/src/js/context/global_state.tsx:627-634 | no `back` appends the folder; `back` drops the last `back` entries |
| GlobalState.EnterThenBack | frontend/src/js/context/global_state.tsx:627-634 | entering a folder then going back one level restores the path |
| GlobalState.ReplaceLast | frontend/src/js/context/global_state.tsx:609-625 | the last entry is replaced by its refreshed copy; an empty path stays empty |
| GlobalState.ChildFolderPayload | frontend/src/js/context/global_state.tsx:726-740 | a folder parent gives its version and id; a version parent gives its id and a null parent |
| GlobalState.BuildPathExtended | frontend/src/js/context/global_state.tsx:558-564 | a new folder with a fresh id leaves every chain as it was |
| GlobalState.FindFolderExtended | frontend/src/js/context/global_state.tsx:558-564 | lookups of other ids are not affected by the new folder |
| GlobalState.ChildPathString | frontend/src/js/context/global_state.tsx:726-744 | a child folder's path string is its name, then its parent's path |
| GlobalState.ChildPathStringInFolder | frontend/src/js/context/global_state.tsx:726-744 | a folder created inside a folder with a path string has that path behind its own name and a `/` |
| GlobalState.GlobalState.constructor | frontend/src/js/context/global_state.tsx:80-100 | the initial state |
| GlobalState.GlobalState.ContentRequest | frontend/src/js/context/global_state.tsx:230-270 | the query sent: the grid page plus one, the page size, the filters of the search form |
| GlobalState.GlobalState.ReceiveContentPage | frontend/src/js/context/global_state.tsx:276-300 | applied only when the request is not older; the timestamp never decreases; the selection is cleared |
| GlobalState.GlobalState.SelectedForFolder | frontend/src/js/context/global_state.tsx:217-227 | the ids sent are those of the selected loaded rows |
| GlobalState.GlobalState.RefreshFoldersInCurrentVersion | frontend/src/js/context/global_state.tsx:552-569 | stores every folder's path string; nothing changes on a cycle |
| GlobalState.GlobalState.EnterVersionRoot | frontend/src/js/context/global_state.tsx:587-600 | the version's root listing with an empty path |
| GlobalState.GlobalState.UpdateCurrentDirectory | frontend/src/js/context/global_state.tsx:609-625 | the listing replaced, the path's last entry refreshed |
| GlobalState.GlobalState.EnterFolder | frontend/src/js/context/global_state.tsx:627-634 | the path after entering or going back, then the directory refresh |
| GlobalState.GlobalState.EnterParent | frontend/src/js/context/global_state.tsx:636-647 | an empty path changes nothing; otherwise one entry is popped |
| ContentsProvider.ContentsProvider.constructor | frontend/src/js/context/contents_provider.tsx:16-41 | the initial state |
| ContentsProvider.ContentsProvider.ContentRequest | frontend/src/js/context/contents_provider.tsx:68-109 | the query sent: the page as given, the grid's sorting, no duplicatable filter |
| ContentsProvider.ContentsProvider.ReceiveContentPage | frontend/src/js/context/contents_provider.tsx:111-134 | applied only when not older; only the configured columns are shown; the selection is untouched |
| ContentsProvider.ContentsProvider.SelectedForFolder | frontend/src/js/context/contents_provider.tsx:62-66 | maps every selected index, throwing on a missing row |
| ContentsProvider.StrictStaysNone | frontend/src/js/context/contents_provider.tsx:62-65 | once the mapping throws, it throws for every longer selection |
| Providers.ErrorMessage | frontend/src/js/context/metadata_provider.tsx:44-55 | a string error is the message; anything else gives `"Unknown Error"` |
| MetadataProvider.ByTypeBuckets | frontend/src/js/context/metadata_provider.tsx:76-78 | a bucket for every type name and nothing else; with unique names each bucket holds exactly that type's metadata in order; unmatched metadata is in no bucket |
| MetadataProvider.MetadataProvider.constructor | frontend/src/js/context/metadata_provider.tsx:16-26 | the initial state |
| MetadataProvider.MetadataProvider.SetErrorState | frontend/src/js/context/metadata_provider.tsx:44-55 | loaded and in error, the message set, all three lists empty |
| MetadataProvider.MetadataProvider.BeginRefresh | frontend/src/js/context/metadata_provider.tsx:59-61 | not loaded any more |
| MetadataProvider.MetadataProvider.ReceiveTypes | frontend/src/js/context/metadata_provider.tsx:62-70 | the error cleared, the types stored, still not loaded |
| MetadataProvider.MetadataProvider.ReceiveMetadata | frontend/src/js/context/metadata_provider.tsx:72-79 | loaded, the metadata stored and grouped by the types |
| MetadataProvider.MetadataProvider.RefreshMetadata | frontend/src/js/context/metadata_provider.tsx:59-82 | the whole refresh for each way its two requests settle |
| LibAssetsProvider.ByGroupBuckets | frontend/src/js/context/lib_assets_provider.tsx:71-73 | keys are exactly 1, 2 and 3; each bucket holds exactly that group's assets in order; other groups appear nowhere |
| LibAssetsProvider.LibAssetsProvider.constructor | frontend/src/js/context/lib_assets_provider.tsx:17-31 | the initial state |
| LibAssetsProvider.LibAssetsProvider.SetErrorState | frontend/src/js/context/lib_assets_provider.tsx:47-56 | loaded and in error, the message set, assets emptied, buckets unchanged |
| LibAssetsProvider.LibAssetsProvider.BeginRefresh | frontend/src/js/context/lib_assets_provider.tsx:60-63 | not loaded any more |
| LibAssetsProvider.LibAssetsProvider.ReceiveAssets | frontend/src/js/context/lib_assets_provider.tsx:64-73 | loaded, the error cleared, the assets replaced and grouped |
| LibAssetsProvider.LibAssetsProvider.RefreshAssets | frontend/src/js/context/lib_assets_provider.tsx:60-76 | the whole refresh for each way its request settles |
| Grouping.GroupBy | frontend/src/js/context/metadata_provider.tsx:76-78 | the reduce with `set` computes the grouped buckets |
| Grouping.GroupedKeys | frontend/src/js/context/metadata_provider.tsx:76-78 | the buckets are named by exactly the groups' names |
| Grouping.GroupedBucket | frontend/src/js/context/lib_assets_provider.tsx:71-73 | with distinct names each bucket holds exactly the items its group accepts, in order |
| Grouping.GroupedMembers | frontend/src/js/context/lib_assets_provider.tsx:71-73 | every item in a bucket is accepted by a group of that name |
| ContentModal.EmptyChoice | frontend/src/js/reusable/content_modal.tsx:56-58 | an empty choice under every type name and nothing else |
| ContentModal.Validated | frontend/src/js/reusable/content_modal.tsx:126-133 | every field's reason is its validator's verdict on its value |
| ContentModal.OrEmpty | frontend/src/js/reusable/content_modal.tsx:88-96 | null text becomes `""` |
| ContentModal.PrefilledMetadata | frontend/src/js/reusable/content_modal.tsx:82-85 | a list under every type name; with unique names each holds exactly the row's metadata of that type id, in order; no list holds anything else |
| ContentModal.IdEntries | frontend/src/js/reusable/content_modal.tsx:172-174 | one metadata entry per chosen metadata, in order |
| ContentModal.FormValuesMembers | frontend/src/js/reusable/content_modal.tsx:146-175 | a text is sent under a name exactly when the form has that entry |
| ContentModal.FormValuesSingle | frontend/src/js/reusable/content_modal.tsx:153-168 | a name with exactly one entry reads back as that entry's text |
| ContentModal.MetadataEntriesKeys | frontend/src/js/reusable/content_modal.tsx:169-175 | all metadata entries are sent under `metadata` |
| ContentModal.MetadataEntriesMembers | frontend/src/js/reusable/content_modal.tsx:169-175 | an id is sent exactly when a known type's choice holds a metadata with it |
| ContentModal.MetadataEntriesSound | frontend/src/js/reusable/content_modal.tsx:169-175 | every id sent belongs to a metadata chosen under a known type |
| ContentModal.MetadataEntriesComplete | frontend/src/js/reusable/content_modal.tsx:169-175 | every metadata chosen under a known type has its id sent |
| ContentModal.FixedValues | frontend/src/js/reusable/content_modal.tsx:153-165 | the fixed appends carry each field once, the date as January 1 of the year, `active` as the mode says |
| ContentModal.OptionalValues | frontend/src/js/reusable/content_modal.tsx:146-168 | a file entry exactly when a file is chosen; a review date exactly when one is set |
| ContentModal.FormReadBack | frontend/src/js/reusable/content_modal.tsx:146-168 | every name but `metadata` reads back exactly its expected texts: no file in edit mode omits `content_file`; `active` is true when adding and mirrors the row when editing |
| ContentModal.FormMetadata | frontend/src/js/reusable/content_modal.tsx:169-175 | the form carries exactly the ids of the metadata chosen for known types |
| ContentModal.AppendMetadata | frontend/src/js/reusable/content_modal.tsx:169-175 | the nested append loop adds exactly the metadata entries |
| ContentModal.AppendIds | frontend/src/js/reusable/content_modal.tsx:171-173 | the inner loop appends one `metadata` entry per chosen metadata, in order |
| ContentModal.ErrorString | frontend/src/js/reusable/content_modal.tsx:194-204 | undefined gives the mode's default; an array its first element; a string itself; an object its first value; null throws |
| ContentModal.ErrorStringOfHandledException | frontend/src/js/reusable/content_modal.tsx:196-201 | an error detail wrapped by the server's handler shows its first message |
| ContentModal.SplitTokensPartition | frontend/src/js/reusable/content_modal.tsx:338-339 | the real metadata and the id-0 tokens are split by id and together form the value |
| ContentModal.ContentModal.constructor | frontend/src/js/reusable/content_modal.tsx:50-67 | the default fields, no reasons |
| ContentModal.ContentModal.ComponentDidUpdate | frontend/src/js/reusable/content_modal.tsx:77-100 | when editing a changed row, every field but the review date is refilled and its reason cleared; otherwise nothing changes |
| ContentModal.ContentModal.Validate | frontend/src/js/reusable/content_modal.tsx:126-133 | the loop sets every reason to its validator's verdict |
| ContentModal.ContentModal.FirstInvalid | frontend/src/js/reusable/content_modal.tsx:134-140 | None exactly when no field has a reason; otherwise the first field that has one |
| ContentModal.ContentModal.BuildForm | frontend/src/js/reusable/content_modal.tsx:142-175 | the appends build exactly the specified form |
| ContentModal.ContentModal.Submit | frontend/src/js/reusable/content_modal.tsx:120-187 | nothing is sent when a field has a reason, or when adding without a file; otherwise the form is posted (add) or patched onto the row (edit) |
| ContentModal.ContentModal.OnMetadataChange | frontend/src/js/reusable/content_modal.tsx:336-357 | without new tokens the real metadata become the choice; otherwise only the first new token is sent to be created, and the choice becomes the real metadata plus the created one if the request succeeds and is left unchanged if it is rejected |

## Left out

- The SQLite writer behind `build_library` (`LibraryDbUtil`, `create_library_db`) and the `content_folder` rows: the model stops at the row sets selected.
- `LibraryBuild`: SQL join multiplicity is not modelled (row sets are sets), nor the argument-count mismatch with the writer's constructor.
- `upload_content_file`, hashing and filename validation are left out; their outcome is the `uploadError` oracle.
- `Metadata.objects.get_or_create` with case-insensitive matching is left out; its outcome is the `attachError` oracle.
- `datetime.now`, `timezone.now` and `os.stat` are inputs: the per-row clock readings `reviewedClock` and `modifiedClock` and the `fileSize` oracle of `Io`. Sheet JSON parsing is an optional input.
- `SheetImport.PublishedDateOf`: floats in "Year Published" are not modelled (JSON numbers are integers here).
- The `__str__` methods of models other than `Metadata` and `LibraryVersion` return one field each and are left out.
- Cookies, `debounce`, `Date.now`, `URL` encoding of query parameters, `date-fns` formatting and `prettyBytes` are browser or library calls; timestamps and date texts are parameters.
- String lengths count code points, not UTF-16 units.
- JavaScript iterates integer-like object keys in numeric order; objects here keep insertion order.
- `in` on objects also matches inherited properties; here it matches own keys only.
- `ContentSearch.DisplayColumns`: a metadata type named like a content field overwrites that field in the display row; the model keeps the columns apart.
- `GlobalState.GlobalState.EnterVersionRoot`: the follow-up refreshes it triggers are separate operations, not chained here.
- The delete-folder, metadata-type and other management requests of `GlobalState` are outside the modelled core.
- `ContentModal.ContentModal.Submit`: when adding without a file it returns without hiding the loader; the loader is not modelled.
- `ContentModal.ContentModal.OnMetadataChange`: `created` is the metadata that a successful `add_metadata` reply carries in its `data`. The `add_metadata` of `GlobalState` (frontend/src/js/context/global_state.tsx:469-476) resolves with the result of `load_content_rows`, which is `undefined`, so the handler pushes `undefined` into the choice and a later submit throws reading its `id` (frontend/src/js/reusable/content_modal.tsx:172). The choice here holds only metadata records, so this defect of the source is not modelled.
- The validator of each form field is supplied by the modal's caller, so it is a parameter of `Validate` and `Submit`. A field without a validator would throw; that case is not modelled.
- `update_state` and `get_field_info_default` are not part of this model; a default field is taken to have reason `""`.
- `GlobalState.ReceiveContentPage` and `ContentsProvider.ReceiveContentPage`: request failures (the rejected promise) leave the state untouched and are not modelled.
- Version cloning: the repository files this model covers contain no clone code, so cloning is not part of this model.
- All React rendering, dialogs, grids and the other screens.
