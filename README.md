# Vault asset library: loader-window catalog engine in Dafny

Vault is an Unreal Engine editor plugin that keeps a shared folder of reusable asset
packs. Each pack is three sibling files named after its `FileId`: `.meta`, `.png` and
`.upack`. The loader window holds an in-memory catalog of the library's metadata
records. From that catalog it derives:

- a category index, a tag index and a developer index, each with usage counts;
- a visible list, built by layered category, tag and developer filters, a
  hide-bad-hierarchy switch and an incremental text search;
- an order for the visible list, by pack name, creation date or modification date,
  in either direction.

It also imports a pack into the project and deletes a pack from the library.

This project models that engine and proves what it computes.

- `VaultTypes`: the metadata record `FVaultMetadata` and its category enum. It covers
  the default constructor, validity, `operator==`, the hash, the category/string
  conversions and the staleness check `CheckInProjectAndVersion` against the imported
  cache.
- `CatalogIndex`: the three index builders. Each is a method that runs the source's
  counting loops. Each is proved equal to a specification function, or to satisfy a
  specification predicate. Lemmas state what the specification means: one entry per
  category whose counts sum to the cache size; only used tags, in ascending order,
  with exact non-zero counts; one entry per distinct author, with exact counts.
- `CatalogFilter`: the filter rules of `UpdateFilteredAssets` and the text search of
  `OnSearchBoxChanged`. Each is given as a specification function, with collecting
  loops proved against it.
- `CatalogSort`: the comparators of the three sort keys. It includes a reference
  insertion sort and the meaning of "sorted" for each key.
- `ImportPath`: the segment-wise common-prefix loop that picks the import destination,
  the archive path, the three file paths of a pack and the archiver command line.
- `LoaderWindow`: a class whose fields are the window's state: the two caches, the
  three indexes, the three filter sets, the hide flag, the visible list, the sort key
  and direction, the last search length, the connection flag and the files handed to
  the file manager. Its methods are the window's operations. Each states the whole new
  state, and each user-facing operation keeps `Valid()`: the category and tag indexes
  describe the cache, and the visible list is in the active order.
- `StringOps` and `Collections`: substring containment, lexical order, splitting and
  joining on a delimiter, order-preserving filtering, and subsequences.

Things the model shows about the code, and follows:

- The visible list does not exclude invalid records (`PackName` equal to `NAME_None`).
  No filter branch in `UpdateFilteredAssets` tests validity. Only the category index
  folds invalid records into Unknown.
- The staleness check finds the imported record by `FileId`, the first match only,
  not by `operator==`.
- The filter rules reduce to a plain conjunction: a record passes when it is not
  hidden and passes each non-empty filter set (`CatalogFilter.AdmitsIsConjunction`).
- The developer index is counted over the visible list. `RefreshLibrary` counts it
  before re-filtering, so afterwards it describes the list shown before the refresh.
  The filter edits do not recount it.
- `TArray::Sort` is not stable, so the sort is specified only as "sorted and a
  permutation". Equal records may come out in any order.
- Search narrows the list already shown unless the text is empty or shorter than
  last time. When the new text contains the previous one, narrowing agrees with a
  fresh search (`CatalogFilter.NarrowingAgreesWithFreshSearch`). A replacement of the
  same or greater length that does not contain the previous text searches inside the
  previous results. `LoaderWindow.LoaderWindow.OnSearchBoxChanged` states exactly that
  behaviour.
- Deleting removes every cache record equal to the pack under `operator==`, which
  compares five descriptive fields only. The three deleted paths are built from the
  `FileId`.

Abstractions:

- An `FName` is its display string, and `NAME_None` is `"None"`.
- Dates are integer ticks. The creation date's text inside the hash key is its tick
  count in decimal, not `FDateTime::ToString`'s calendar text; the hash properties
  only need the text to depend on the date alone.
- `ObjectsInPack` is a sequence in the set's iteration order, because the destination
  loop depends on that order.
- Tags are a set. The tag-count loop walks it in an arbitrary order.
- Outside facts are parameters:
  - the connection check;
  - the library as read from disk;
  - the archiver's success;
  - the search box text and the strict check box;
  - `FDateTime::UtcNow()`;
  - the engine's string hash;
  - the library and content folders.
- File deletion appends the path to `deletedFiles`.

## Model

| member | source | states |
|---|---|---|
| VaultTypes.Ordinal | Vault/Source/Vault/Private/SLoaderWindow.cpp:616-625 | every category has an index from 0 to Unknown, and casting that index back gives the category |
| VaultTypes.OrdinalRoundTrip | Vault/Source/Vault/Private/SLoaderWindow.cpp:616-619 | every index from 0 to Unknown casts to a category whose index is that index |
| VaultTypes.DefaultMetadata | VaultDev2/Plugins/Vault/Source/Vault/Public/VaultTypes.h:25-34 | a default-constructed record is invalid and has an empty description; its two dates are two separate readings of the clock |
| VaultTypes.MetaEqualsIsEquivalence | VaultDev2/Plugins/Vault/Source/Vault/Public/VaultTypes.h:50-58 | operator== is reflexive, symmetric and transitive |
| VaultTypes.MetaEqualsIgnoresPayload | VaultDev2/Plugins/Vault/Source/Vault/Public/VaultTypes.h:50-58 | records that differ only in tags, object list, relative path, machine id or thumbnail are equal |
| VaultTypes.EqualRecordsHashAlike | VaultDev2/Plugins/Vault/Source/Vault/Public/VaultTypes.h:44-58 | equal records have equal GetTypeHash values, whatever the string hash is |
| VaultTypes.LastModifiedOnlyAffectsEquality | VaultDev2/Plugins/Vault/Source/Vault/Public/VaultTypes.h:44-58 | changing only LastModified keeps the hash but makes the record unequal to the original |
| VaultTypes.CategoryToString | Vault/Source/Vault/Private/VaultTypes.cpp:36-59 | StringToCategory gives back every category from its name, Unknown included |
| VaultTypes.CategoryToStringInjective | Vault/Source/Vault/Private/VaultTypes.cpp:36-59 | distinct categories have distinct names |
| VaultTypes.ParsedCategoryIsCanonical | Vault/Source/Vault/Private/VaultTypes.cpp:61-69 | the result is Unknown exactly when the string is none of the five exact, case-sensitive names; a known result prints back as the input |
| VaultTypes.FirstWithFileId | Vault/Source/Vault/Private/VaultTypes.cpp:17-25 | the search finds the first imported record with the FileId, or reports that no record has it |
| VaultTypes.InProjectStateMeaning | Vault/Source/Vault/Private/VaultTypes.cpp:14-34 | the state is in {-1, 0, 1}; 0 iff no FileId match or the first match is invalid; -1 iff the first match is valid and strictly older; 1 iff it is valid and not older |
| VaultTypes.CheckInProjectAndVersion | Vault/Source/Vault/Private/VaultTypes.cpp:14-34 | the search loop returns that state and writes it to InProjectVersion; no other field changes and the imported cache is only read |
| VaultTypes.IsMetaValid | VaultDev2/Plugins/Vault/Source/Vault/Public/VaultTypes.h:36-39 | defines validity as PackName differing from NAME_None; DefaultMetadata and InProjectStateMeaning use it |
| VaultTypes.MetaEquals | VaultDev2/Plugins/Vault/Source/Vault/Public/VaultTypes.h:50-58 | defines operator== over Author, PackName, Description, CreationDate and LastModified; MetaEqualsIsEquivalence and MetaEqualsIgnoresPayload characterise it |
| VaultTypes.TypeHash | VaultDev2/Plugins/Vault/Source/Vault/Public/VaultTypes.h:44-48 | defines GetTypeHash as the string hash of PackName, Author, Description and the creation date's text; EqualRecordsHashAlike and LastModifiedOnlyAffectsEquality characterise it |
| VaultTypes.StringToCategory | Vault/Source/Vault/Private/VaultTypes.cpp:61-69 | defines the exact-match if-chain with Unknown as the fallback; ParsedCategoryIsCanonical and CategoryToString characterise it |
| VaultTypes.InProjectState | Vault/Source/Vault/Private/VaultTypes.cpp:14-34 | defines the tri-state verdict from the first FileId match; InProjectStateMeaning characterises it and CheckInProjectAndVersion computes it |
| StringOps.ContainsTransitive | Vault/Source/Vault/Private/SLoaderWindow.cpp:1011-1026 | substring containment is transitive, which is why narrowing a search is sound for a longer text that contains the old one |
| StringOps.LexicalLessIrreflexive | Vault/Source/Vault/Private/SLoaderWindow.cpp:1419-1422 | the name order never places a name before itself |
| StringOps.LexicalLessTransitive | Vault/Source/Vault/Private/SLoaderWindow.cpp:1419-1422 | the name order is transitive |
| StringOps.LexicalLessTotal | Vault/Source/Vault/Private/SLoaderWindow.cpp:1419-1422 | any two distinct names are ordered one way or the other |
| StringOps.LexicalLessAsymmetric | Vault/Source/Vault/Private/SLoaderWindow.cpp:1419-1422 | two names are never ordered both ways |
| StringOps.InsertSorted | Vault/Source/Vault/Private/SLoaderWindow.cpp:676-682 | inserting a new key into a strictly ascending key list keeps it strictly ascending and adds exactly that key |
| StringOps.ParseIntoArray | Vault/Source/Vault/Private/SLoaderWindow.cpp:1233 | splitting on a delimiter gives non-empty pieces that contain no delimiter |
| StringOps.JoinStringArray | Vault/Source/Vault/Private/SLoaderWindow.cpp:1256 | defines JoinStringArray: the pieces with the separator between consecutive ones; ParseJoinRoundTrip characterises it |
| StringOps.ParseJoinRoundTrip | Vault/Source/Vault/Private/SLoaderWindow.cpp:1255-1256 | joining clean segments with '/' and splitting the result on '/' gives back the segments |
| Collections.FilterNarrowing | Vault/Source/Vault/Private/SLoaderWindow.cpp:1009-1034 | filtering an already filtered list by a stronger condition equals filtering the original list by it |
| Collections.FilterIsSubsequence | Vault/Source/Vault/Private/SLoaderWindow.cpp:1375-1406 | the Add loops keep the records they select in their original order, each once |
| CatalogIndex.CategoryIndexShape | Vault/Source/Vault/Private/SLoaderWindow.cpp:610-640 | the category index has one entry per enum value, at the category's index, with distinct categories and the count of records in that bucket |
| CatalogIndex.CategoryIndexSnoc | Vault/Source/Vault/Private/SLoaderWindow.cpp:627-637 | one more record adds 1 to exactly one entry: its own category if valid, Unknown otherwise |
| CatalogIndex.CategoryCountsSumToCacheSize | Vault/Source/Vault/Private/SLoaderWindow.cpp:616-637 | the category counts sum to the number of cached records |
| CatalogIndex.CountCategoryUses | Vault/Source/Vault/Private/SLoaderWindow.cpp:610-640 | the zero-fill loop and the counting loop produce exactly the category index of the cache |
| CatalogIndex.TagCountsSnoc | Vault/Source/Vault/Private/SLoaderWindow.cpp:653-674 | one more record adds its tags to the used tags and adds 1 to exactly the counts of its own tags |
| CatalogIndex.UnusedTagHasNoCount | Vault/Source/Vault/Private/SLoaderWindow.cpp:653-674 | a tag no record carries has count 0 |
| CatalogIndex.TagInUseIsCounted | Vault/Source/Vault/Private/SLoaderWindow.cpp:653-674 | a tag some record carries has a positive count |
| CatalogIndex.TagIndexHasNoZeroCounts | Vault/Source/Vault/Private/SLoaderWindow.cpp:643-682 | no entry of a tag index has count 0 |
| CatalogIndex.CountTagUses | Vault/Source/Vault/Private/SLoaderWindow.cpp:653-674 | the counting map's keys are exactly the used tags, and each value is the number of records carrying that tag |
| CatalogIndex.AddTagsOf | Vault/Source/Vault/Private/SLoaderWindow.cpp:656-673 | one record's tag loop adds a missing tag with count 1, adds 1 to a present one, and leaves other entries alone |
| CatalogIndex.TagItemsInKeyOrder | Vault/Source/Vault/Private/SLoaderWindow.cpp:676-682 | the key sort and value export list every map entry once, with its count, in strictly ascending tag order |
| CatalogIndex.BuildTagIndex | Vault/Source/Vault/Private/SLoaderWindow.cpp:644-684 | the tag index holds exactly the used tags in ascending order, each with its exact use count |
| CatalogIndex.AddDeveloperKeys | Vault/Source/Vault/Private/SLoaderWindow.cpp:695-704 | counting one more author adds that author to the keys and keeps the keys distinct |
| CatalogIndex.AddDeveloperCounts | Vault/Source/Vault/Private/SLoaderWindow.cpp:695-704 | counting one more author adds 1 to that author's count only, and counts stay positive |
| CatalogIndex.DeveloperIndexMeaning | Vault/Source/Vault/Private/SLoaderWindow.cpp:686-714 | the developer index has one entry per distinct author of the list, each count is that author's number of records and is positive, and the counts sum to the list length |
| CatalogIndex.CountDeveloperUses | Vault/Source/Vault/Private/SLoaderWindow.cpp:686-714 | the counting loop and the export loop produce exactly the developer index of the list |
| CatalogFilter.VisibleSnoc | Vault/Source/Vault/Private/SLoaderWindow.cpp:1375-1406 | one more cached record is appended to the visible list exactly when the filters admit it |
| CatalogFilter.AdmitsIsConjunction | Vault/Source/Vault/Private/SLoaderWindow.cpp:1384-1405 | the three rules together admit a record iff it is not hidden and every non-empty filter set (category, tag, developer) matches it |
| CatalogFilter.UnfilteredShowsCache | Vault/Source/Vault/Private/SLoaderWindow.cpp:1351-1373 | with no filter sets, the visible list is the whole cache, or only the records with HierarchyBadness <= 0 when hiding; validity is not consulted |
| CatalogFilter.VisibleIsOrderedSelection | Vault/Source/Vault/Private/SLoaderWindow.cpp:1346-1411 | the visible list keeps cache order, and a cached record is in it iff the filters admit it |
| CatalogFilter.CollectWellFormed | Vault/Source/Vault/Private/SLoaderWindow.cpp:1360-1372 | the hiding loop with no filter sets produces exactly the visible list for that state |
| CatalogFilter.CollectAdmitted | Vault/Source/Vault/Private/SLoaderWindow.cpp:1375-1406 | the filter loop with its continue/break structure produces exactly the visible list, each record at most once |
| CatalogFilter.MatchesTagRule | Vault/Source/Vault/Private/SLoaderWindow.cpp:1391-1398 | the inner tag loop adds the record iff one of its tags is filtered and the developer and category conditions hold |
| CatalogFilter.RockTagFilterExample | Vault/Source/Vault/Private/SLoaderWindow.cpp:1391-1398 | with tag filter {rock}, of packs tagged {nature, rock}, {nature}, {nature, tree} only the first is visible |
| CatalogFilter.NatureTagFilterExample | Vault/Source/Vault/Private/SLoaderWindow.cpp:1391-1398 | with tag filter {nature}, all three of those packs are visible, in cache order |
| CatalogFilter.TagAndDeveloperFilterExample | Vault/Source/Vault/Private/SLoaderWindow.cpp:1393 | with tag filter {nature} and the third pack's author as developer filter, only the third pack is visible |
| CatalogFilter.SearchSnoc | Vault/Source/Vault/Private/SLoaderWindow.cpp:1009-1032 | one more scanned record is appended to the matches exactly when it matches the search |
| CatalogFilter.StrictSearchIsByPackName | Vault/Source/Vault/Private/SLoaderWindow.cpp:1011-1017 | strict search keeps exactly the records whose pack name contains the text |
| CatalogFilter.SearchIsOrderedSelection | Vault/Source/Vault/Private/SLoaderWindow.cpp:1006-1034 | search keeps an order-preserving selection of the list it scans, and a record is kept iff its pack name contains the text or, when not strict, its author, description or a tag does |
| CatalogFilter.NarrowingAgreesWithFreshSearch | Vault/Source/Vault/Private/SLoaderWindow.cpp:993-1009 | searching the previous results for a text that contains the previous text gives the same list as searching the original list |
| CatalogFilter.CollectSearchMatches | Vault/Source/Vault/Private/SLoaderWindow.cpp:1006-1034 | the search loop produces exactly the search results of the scanned list |
| CatalogFilter.AnyTagContains | Vault/Source/Vault/Private/SLoaderWindow.cpp:1024-1030 | the tag loop reports whether some tag of the record contains the text |
| CatalogFilter.Admits | Vault/Source/Vault/Private/SLoaderWindow.cpp:1375-1406 | defines when the filter loop adds a record: not hidden, and the category, tag or developer rule holds (or no filter set is active); AdmitsIsConjunction characterises it |
| CatalogFilter.VisibleAssets | Vault/Source/Vault/Private/SLoaderWindow.cpp:1346-1406 | defines the visible list as the admitted records in cache order; VisibleIsOrderedSelection and UnfilteredShowsCache characterise it, and CollectAdmitted and CollectWellFormed compute it |
| CatalogFilter.MatchesSearch | Vault/Source/Vault/Private/SLoaderWindow.cpp:1011-1030 | defines a search match: pack name contains the text, or when not strict the author, description or a tag does; StrictSearchIsByPackName characterises the strict case |
| CatalogFilter.SearchResults | Vault/Source/Vault/Private/SLoaderWindow.cpp:1006-1034 | defines the search result as the matching records in scan order; SearchIsOrderedSelection and NarrowingAgreesWithFreshSearch characterise it, and CollectSearchMatches computes it |
| CatalogSort.Precedes | Vault/Source/Vault/Private/SLoaderWindow.cpp:1417-1435 | defines the three comparator lambdas, each with its reversed form; PrecedesAsymmetric, NotPrecedesTransitive and SortedByMeaning characterise them |
| CatalogSort.PrecedesAsymmetric | Vault/Source/Vault/Private/SLoaderWindow.cpp:1417-1435 | no comparator places two records before each other |
| CatalogSort.NotPrecedesTransitive | Vault/Source/Vault/Private/SLoaderWindow.cpp:1417-1435 | "not placed before" is transitive for every comparator, so each is a strict weak order the array sort can use |
| CatalogSort.InsertBy | Vault/Source/Vault/Private/SLoaderWindow.cpp:1417-1435 | inserting a record into a sorted list keeps it sorted and adds exactly that record |
| CatalogSort.SortBy | Vault/Source/Vault/Private/SLoaderWindow.cpp:1413-1437 | every list has a sorting: an arrangement in the comparator's order that is a permutation of it |
| CatalogSort.SortedByMeaning | Vault/Source/Vault/Private/SLoaderWindow.cpp:1417-1435 | a sorted list has pack names ascending (descending when reversed) and dates newest first (oldest first when reversed) |
| CatalogSort.ChoosingTwiceRestoresDirection | Vault/Source/Vault/Private/SLoaderWindow.cpp:919-948 | choosing the active key twice restores the direction, and choosing another key starts with reverse off |
| ImportPath.Segments | Vault/Source/Vault/Private/SLoaderWindow.cpp:1233-1238 | an object path splits on '/' into non-empty segments without '/' |
| ImportPath.FirstMismatch | Vault/Source/Vault/Private/SLoaderWindow.cpp:1240-1249 | the cut point is the first index where both paths have a segment and they differ, or the target's length when there is none |
| ImportPath.MergeSegments | Vault/Source/Vault/Private/SLoaderWindow.cpp:1231-1250 | an empty target is seeded by the new path; otherwise the result is a prefix of the target that agrees with the new path, cut only at a real difference |
| ImportPath.TargetSegments | Vault/Source/Vault/Private/SLoaderWindow.cpp:1229-1251 | the segments left after all object paths are non-empty and hold no '/' |
| ImportPath.FirstMismatchIsUnique | Vault/Source/Vault/Private/SLoaderWindow.cpp:1240-1249 | any index with the cut point's properties is the cut point |
| ImportPath.ComputeTargetSegments | Vault/Source/Vault/Private/SLoaderWindow.cpp:1227-1251 | the loop over the object paths produces exactly the target segments |
| ImportPath.TrimAtMismatch | Vault/Source/Vault/Private/SLoaderWindow.cpp:1237-1249 | the scan and the RemoveAt loop from the back cut the target at the first mismatch |
| ImportPath.EmptyTargetIsReseeded | Vault/Source/Vault/Private/SLoaderWindow.cpp:1231-1234 | after the target has been emptied, the next path seeds it again |
| ImportPath.AgreeingPathKeepsTarget | Vault/Source/Vault/Private/SLoaderWindow.cpp:1240-1249 | a path that agrees with the target wherever both have a segment, a shorter one included, leaves the target unchanged |
| ImportPath.TargetSegmentsSharedRoot | Vault/Source/Vault/Private/SLoaderWindow.cpp:1227-1256 | when all paths start with one folder, the target is a non-empty prefix of the first path that starts with it, agrees with every path, and is the longest such prefix |
| ImportPath.PathAppend | Vault/Source/Vault/Private/SLoaderWindow.cpp:1315 | joining a folder and a name adds at most one '/' between them |
| ImportPath.PackFilePaths | Vault/Source/Vault/Private/SLoaderWindow.cpp:1315-1318 | a pack has three file paths |
| ImportPath.PackFilesAreDistinctSiblings | Vault/Source/Vault/Private/SLoaderWindow.cpp:1314-1322 | the .png, .meta and .upack paths are distinct, share the LibraryPath/FileId stem, and the archive deleted is the one import extracts |
| ImportPath.DestinationNamesTargetFolders | Vault/Source/Vault/Private/SLoaderWindow.cpp:1255-1256 | the destination is the content folder, '/', and the target segments after the first, joined so that no folder is lost or merged |
| ImportPath.ArchivePath | Vault/Source/Vault/Private/SLoaderWindow.cpp:1173 | defines the archive path LibraryPath/FileId.upack; PackFilesAreDistinctSiblings shows it is the .upack that delete removes |
| ImportPath.ImportDestination | Vault/Source/Vault/Private/SLoaderWindow.cpp:1255-1256 | defines the destination as the content folder, '/', and the target segments after the first joined by '/'; DestinationNamesTargetFolders characterises it |
| ImportPath.ExtractCommand | Vault/Source/Vault/Private/SLoaderWindow.cpp:1260 | defines the archiver command line -Extract "archive" "destination"; LoadAssetPackIntoProject states the command it builds with it |
| LoaderWindow.RemoveEqual | Vault/Source/Vault/Private/SLoaderWindow.cpp:1325 | no record equal to the pack remains, and every unequal record stays |
| LoaderWindow.RemoveEqualKeepsOrder | Vault/Source/Vault/Private/SLoaderWindow.cpp:1325 | the remaining records keep their cache order |
| LoaderWindow.SortedByIgnoresInProjectVersion | Vault/Source/Vault/Private/SLoaderWindow.cpp:1284 | marking one record's InProjectVersion keeps the visible list sorted under every key |
| LoaderWindow.LoaderWindow.constructor | Vault/Source/Vault/Private/SLoaderWindow.cpp:218-234 | loads the library when connected, shows all of it sorted by name ascending, builds the three indexes, and has no filters and last search length 0 |
| LoaderWindow.LoaderWindow.RefreshAvailableFiles | Vault/Source/Vault/Private/SLoaderWindow.cpp:1332-1343 | the cache is replaced by the library only when the connection check succeeds; otherwise it is untouched; nothing else changes |
| LoaderWindow.LoaderWindow.PopulateBaseAssetList | Vault/Source/Vault/Private/SLoaderWindow.cpp:599-607 | the visible list becomes a copy of the cache; nothing else changes |
| LoaderWindow.LoaderWindow.PopulateCategoryArray | Vault/Source/Vault/Private/SLoaderWindow.cpp:610-641 | the category index becomes the index of the current cache; nothing else changes |
| LoaderWindow.LoaderWindow.PopulateTagArray | Vault/Source/Vault/Private/SLoaderWindow.cpp:644-684 | the tag index becomes a tag index of the current cache; nothing else changes |
| LoaderWindow.LoaderWindow.PopulateDeveloperNameArray | Vault/Source/Vault/Private/SLoaderWindow.cpp:686-714 | the developer index becomes the index of the current visible list, not of the cache; nothing else changes |
| LoaderWindow.LoaderWindow.UpdateFilteredAssets | Vault/Source/Vault/Private/SLoaderWindow.cpp:1346-1411 | the visible list becomes the filters' selection from the cache; caches, indexes and settings are unchanged |
| LoaderWindow.LoaderWindow.SortFilteredAssetsBy | Vault/Source/Vault/Private/SLoaderWindow.cpp:1413-1437 | records the key and direction, and the visible list becomes a sorting of itself by them |
| LoaderWindow.LoaderWindow.SortFilteredAssets | Vault/Source/Vault/Private/SLoaderWindow.cpp:1439-1442 | re-sorts the visible list by the active key and direction |
| LoaderWindow.LoaderWindow.OnSearchBoxChanged | Vault/Source/Vault/Private/SLoaderWindow.cpp:982-1039 | empty text shows the sorted filter result; otherwise the list is the sorted search of either the filter result (text shorter than last time) or the current list, and the length is remembered |
| LoaderWindow.LoaderWindow.RefreshLibrary | Vault/Source/Vault/Private/SLoaderWindow.cpp:1466-1480 | leaves the state RefreshedFrom describes: reloads when connected, rebuilds the category and tag indexes from the cache and the developer index from the list shown before, re-applies the filters and the search text (updating the search length when it is not empty), sorts, and keeps Valid; filters and sort settings are unchanged |
| LoaderWindow.LoaderWindow.ChooseSortingType | Vault/Source/Vault/Private/SLoaderWindow.cpp:919-948 | the chosen key becomes active; the direction flips if it was already active and is reset otherwise; the filters are kept; then the whole state is that of a library refresh (RefreshedFrom) from the state before the call |
| LoaderWindow.LoaderWindow.ToggleHideBadHierarchy | Vault/Source/Vault/Private/SLoaderWindow.cpp:957-975 | flips the hide flag, keeps the filter sets and the sort key and direction; then the whole state is that of a library refresh (RefreshedFrom) from the state before the call, so the list reflects the new flag |
| LoaderWindow.LoaderWindow.ModifyActiveCategoryFilters | Vault/Source/Vault/Private/SLoaderWindow.cpp:1487-1502 | adds or removes the category, and the list becomes the sorted filter result; the other filter sets, the hide flag, the sort settings, the caches, the indexes and the last search length are unchanged |
| LoaderWindow.LoaderWindow.ModifyActiveTagFilters | Vault/Source/Vault/Private/SLoaderWindow.cpp:1504-1520 | adds or removes the tag, and the list becomes the sorted filter result; the other filter sets, the hide flag, the sort settings, the caches, the indexes and the last search length are unchanged |
| LoaderWindow.LoaderWindow.ModifyActiveDevFilters | Vault/Source/Vault/Private/SLoaderWindow.cpp:1522-1537 | adds or removes the developer, and the list becomes the sorted filter result; the other filter sets, the hide flag, the sort settings, the caches, the indexes and the last search length are unchanged |
| LoaderWindow.LoaderWindow.CheckVisibleAssetInProject | Vault/Source/Vault/Private/VaultTypes.cpp:14-34 | a bridge with no counterpart in the window: runs the staleness check on a visible record against the imported cache, stores the verdict in that record only, and the list stays sorted |
| LoaderWindow.LoaderWindow.LoadAssetPackIntoProject | Vault/Source/Vault/Private/SLoaderWindow.cpp:1167-1284 | builds the extract command from the archive path and the destination; on archiver failure nothing changes, on success only the pack's InProjectVersion becomes 1 |
| LoaderWindow.LoaderWindow.DeleteAssetPack | Vault/Source/Vault/Private/SLoaderWindow.cpp:1309-1330 | hands the three sibling files to the file manager and removes every equal record from the cache; then the whole state is that of a library refresh (RefreshedFrom) from that cache, so without a connection the cache is exactly the old one minus the equal records; filters and sort settings are unchanged |

## Left out

- Slate widgets, layout, menus, tile and metadata views, `RebuildList`/`ScrollToTop`,
  the thumbnail slider (floating point) and delegate binding: presentation only.
- Logging and the progress dialog (`FScopedSlowTask`): no effect on state.
- `FVaultSettings::CheckConnection`, `FVaultModule::UpdateMetaFilesCache` and
  `FVaultStyle::CacheThumbnailsLocally`: the check's answer and the reloaded library are
  parameters; the thumbnail cache is not modelled.
- `ExecuteUnrealPak`: its answer is the `extracted` parameter. The AssetRegistry
  lookups and the ContentBrowser sync after an import are not modelled.
- `FMetadataOps::CopyMetadataToLocal`: its code is not part of this model, so a
  successful import does not add the pack to the imported cache.
- `IFileManager::Delete`: each path handed to it is appended to `deletedFiles`; whether
  the file existed is not modelled.
- The tile context menu (`SLoaderWindow.cpp` 769-909) is left out. It calls import and delete,
  which are modelled, and reads `InProjectVersion` to decide whether to offer "Remove
  Metadata from Project". That entry calls `FMetadataOps::DeleteMetadata`, whose code
  is not part of this model, and then refreshes the library.
- `CheckInProjectAndVersion` has no caller in the window's code. The model adds
  `LoaderWindow.CheckVisibleAssetInProject` as a bridge that applies it to a visible
  record; the window itself has no such operation.
- Unreal's case rules. The model compares exact strings everywhere. In the engine:
  - `FString::Contains` in the search (`SLoaderWindow.cpp` 1011-1026) ignores case by default.
  - `FString` `==`, `<` and `GetTypeHash` ignore case. So the tag map merges tags that
    differ only in case, such as "Rock" and "rock", into one counted entry (650-671).
    `KeySort` with `A < B` orders tags ignoring case (676-679).
    `ActiveTagFilters.Contains` matches a tag ignoring case (1393).
    The `Description ==` inside `operator==` (`VaultTypes.h` 55) ignores case, which
    widens what `DeleteAssetPack` removes.
  - `FName` comparison, used for authors and pack names in `operator==` and the
    developer filter and index, ignores case. `FName::LexicalLess` follows engine rules;
    the model uses code-point lexicographic order.
  - `FString::Equals`, used by `StringToCategory` (`VaultTypes.cpp` 63-67) and by the
    segment comparison of the import loop (`SLoaderWindow.cpp` 1242), is case-sensitive,
    as modelled.
- `FVaultMetadata` in `VaultTypes.h` lacks `FileId`, `Category`, `HierarchyBadness` and
  `InProjectVersion`, which the code uses. The model adds them, with Unknown, 0 and 0 as
  the default values.
- The `.meta` file format, the scan of the library folder and the local project store:
  none of their code is part of this model.
- LoaderWindow.LoaderWindow.LoadAssetPackIntoProject: requires the target segment list to
  be non-empty after the loop. The code calls `RemoveAt(0)` on it unconditionally, which
  is an engine range-check failure on an empty array, not a handled error.
- LoaderWindow.LoaderWindow.SortFilteredAssetsBy: states that the result is sorted and a
  permutation, not which of several equal records comes first. `TArray::Sort` is an
  unstable engine sort whose exact arrangement is not modelled.
- ImportPath.ExtractCommand: the archiver command line is built, and
  `LoadAssetPackIntoProject` states it, but no property of it is proved.
