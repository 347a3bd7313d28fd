/** The loader window's catalog state and the operations that rebuild it: the usage
    indexes, the filtered and searched visible list, its sort order, import and delete. */
module LoaderWindow {
  import opened VaultTypes
  import opened StringOps
  import opened Collections
  import opened CatalogIndex
  import opened CatalogFilter
  import opened CatalogSort
  import opened ImportPath

  /** TArray::Remove: every record equal to `pack` leaves the cache; the rest stay in order. */
  function RemoveEqual(cache: seq<Metadata>, pack: Metadata): (r: seq<Metadata>)
    ensures forall k :: 0 <= k < |r| ==> !MetaEquals(r[k], pack)
    ensures forall k :: 0 <= k < |cache| ==> (cache[k] in r <==> !MetaEquals(cache[k], pack))
  {
    Filter(cache, m => !MetaEquals(m, pack))
  }

  /** Removal keeps the surviving records in cache order. */
  lemma RemoveEqualKeepsOrder(cache: seq<Metadata>, pack: Metadata)
    ensures IsSubsequence(RemoveEqual(cache, pack), cache)
  {
    FilterIsSubsequence(cache, m => !MetaEquals(m, pack));
  }

  /** The window. The two caches belong to the plugin module in the program; here they
      are fields so that the operations on them can be stated. */
  class LoaderWindow {
    /** Library records (FVaultModule::MetaFilesCache). */
    var metaFilesCache: seq<Metadata>
    /** Records of packs already imported into the project (FVaultModule::ImportedMetaFileCache). */
    var importedMetaFileCache: seq<Metadata>
    var categoryCloud: seq<CategoryItem>
    var tagCloud: seq<TagItem>
    var developerCloud: seq<DeveloperItem>
    var activeCategoryFilters: set<Category>
    var activeTagFilters: set<string>
    var activeDevFilters: set<Name>
    var hideBadHierarchyAssets: bool
    /** The visible list. */
    var filteredAssetItems: seq<Metadata>
    var activeSortingType: SortingType
    var sortingReversed: bool
    var lastSearchTextLength: nat
    /** Outcome of the last connection check. */
    var isConnected: bool
    /** Files handed to the file manager for deletion, in order. */
    var deletedFiles: seq<string>

    function Filters(): FilterState
      reads this
    {
      FilterState(activeCategoryFilters, activeTagFilters, activeDevFilters, hideBadHierarchyAssets)
    }

    /** What every user-facing operation keeps: the category and tag indexes describe the
        library cache and the visible list is in the active sort order. */
    predicate Valid()
      reads this
    {
      && categoryCloud == CategoryIndex(metaFilesCache)
      && IsTagIndex(tagCloud, metaFilesCache)
      && SortedBy(filteredAssetItems, activeSortingType, sortingReversed)
    }

    twostate predicate CachesUnchanged()
      reads this
    {
      && metaFilesCache == old(metaFilesCache)
      && importedMetaFileCache == old(importedMetaFileCache)
      && isConnected == old(isConnected)
      && deletedFiles == old(deletedFiles)
    }

    twostate predicate IndexesUnchanged()
      reads this
    {
      categoryCloud == old(categoryCloud) && tagCloud == old(tagCloud) && developerCloud == old(developerCloud)
    }

    twostate predicate SettingsUnchanged()
      reads this
    {
      && Filters() == old(Filters())
      && activeSortingType == old(activeSortingType)
      && sortingReversed == old(sortingReversed)
    }

    /** The state a library refresh leaves behind, given the cache, visible list, last
        search length, imported cache and deleted files it started from:
        - the cache is reloaded only when connected;
        - the developer index describes the list shown before the refresh;
        - the visible list is the sorted filter result, searched when the text is not
          empty, and the search length is updated to match;
        - Valid() holds. */
    predicate RefreshedFrom(cache: seq<Metadata>, shown: seq<Metadata>, searchLength: nat,
                            imported: seq<Metadata>, deleted: seq<string>,
                            connected: bool, library: seq<Metadata>, searchText: string, strict: bool)
      reads this
    {
      && isConnected == connected
      && metaFilesCache == (if connected then library else cache)
      && importedMetaFileCache == imported && deletedFiles == deleted
      && developerCloud == DeveloperIndex(shown)
      && (|searchText| == 0 ==>
            && IsSortingOf(filteredAssetItems, VisibleAssets(metaFilesCache, Filters()), activeSortingType, sortingReversed)
            && lastSearchTextLength == searchLength)
      && (|searchText| > 0 ==>
            && IsSortingOf(filteredAssetItems, SearchResults(VisibleAssets(metaFilesCache, Filters()), searchText, strict),
                           activeSortingType, sortingReversed)
            && lastSearchTextLength == |searchText|)
      && Valid()
    }

    /** Construct: loads the library, shows all of it sorted by pack name, and builds the
        indexes (the developer index over the whole library, the list shown at that point). */
    constructor (cache: seq<Metadata>, imported: seq<Metadata>, connected: bool, library: seq<Metadata>)
      ensures isConnected == connected
      ensures metaFilesCache == (if connected then library else cache)
      ensures importedMetaFileCache == imported
      ensures developerCloud == DeveloperIndex(metaFilesCache)
      ensures Filters() == FilterState({}, {}, {}, false)
      ensures activeSortingType == Filename && !sortingReversed
      ensures IsSortingOf(filteredAssetItems, metaFilesCache, Filename, false)
      ensures lastSearchTextLength == 0 && deletedFiles == []
      ensures Valid()
    {
      metaFilesCache := cache;
      importedMetaFileCache := imported;
      activeCategoryFilters := {};
      activeTagFilters := {};
      activeDevFilters := {};
      deletedFiles := [];
      new;
      RefreshAvailableFiles(connected, library);
      ghost var loaded := metaFilesCache;
      PopulateBaseAssetList();
      PopulateCategoryArray();
      PopulateTagArray();
      PopulateDeveloperNameArray();
      assert filteredAssetItems == loaded && developerCloud == DeveloperIndex(loaded);
      assert categoryCloud == CategoryIndex(loaded) && IsTagIndex(tagCloud, loaded);
      activeSortingType := Filename;
      sortingReversed := false;
      hideBadHierarchyAssets := false;
      SortFilteredAssetsBy(activeSortingType, sortingReversed);
      lastSearchTextLength := 0;
    }

    /** The cache is reloaded (`library` stands for what is on disk) only when the
        connection check succeeds; otherwise it is left as it was. */
    method RefreshAvailableFiles(connected: bool, library: seq<Metadata>)
      modifies this
      ensures isConnected == connected
      ensures metaFilesCache == (if connected then library else old(metaFilesCache))
      ensures importedMetaFileCache == old(importedMetaFileCache) && deletedFiles == old(deletedFiles)
      ensures IndexesUnchanged() && SettingsUnchanged()
      ensures filteredAssetItems == old(filteredAssetItems) && lastSearchTextLength == old(lastSearchTextLength)
    {
      isConnected := connected;
      if isConnected {
        metaFilesCache := library;
      }
    }

    /** The visible list becomes a copy of the whole cache. */
    method PopulateBaseAssetList()
      modifies this
      ensures filteredAssetItems == metaFilesCache
      ensures CachesUnchanged() && IndexesUnchanged() && SettingsUnchanged()
      ensures lastSearchTextLength == old(lastSearchTextLength)
    {
      var cache := metaFilesCache;
      var items: seq<Metadata> := [];
      var i := 0;
      while i < |cache|
        invariant 0 <= i <= |cache|
        invariant items == cache[..i]
      {
        items := items + [cache[i]];
        i := i + 1;
      }
      filteredAssetItems := items;
    }

    /** One zero entry per category, then one count per cached record: its own category
        when valid, Unknown otherwise. */
    method PopulateCategoryArray()
      modifies this
      ensures categoryCloud == CategoryIndex(metaFilesCache)
      ensures CachesUnchanged() && SettingsUnchanged()
      ensures tagCloud == old(tagCloud) && developerCloud == old(developerCloud)
      ensures filteredAssetItems == old(filteredAssetItems) && lastSearchTextLength == old(lastSearchTextLength)
    {
      categoryCloud := CountCategoryUses(metaFilesCache);
    }

    /** Counts every tag of every cached record in a map, then lists the map's entries
        in ascending key order. */
    method PopulateTagArray()
      modifies this
      ensures IsTagIndex(tagCloud, metaFilesCache)
      ensures CachesUnchanged() && SettingsUnchanged()
      ensures categoryCloud == old(categoryCloud) && developerCloud == old(developerCloud)
      ensures filteredAssetItems == old(filteredAssetItems) && lastSearchTextLength == old(lastSearchTextLength)
    {
      tagCloud := BuildTagIndex(metaFilesCache);
    }

    /** Counts the authors of the visible list in an insertion-ordered map and lists its
        entries. */
    method PopulateDeveloperNameArray()
      modifies this
      ensures developerCloud == DeveloperIndex(filteredAssetItems)
      ensures CachesUnchanged() && SettingsUnchanged()
      ensures categoryCloud == old(categoryCloud) && tagCloud == old(tagCloud)
      ensures filteredAssetItems == old(filteredAssetItems) && lastSearchTextLength == old(lastSearchTextLength)
    {
      developerCloud := CountDeveloperUses(filteredAssetItems);
    }

    /** Rebuilds the visible list from the cache under the active filters. */
    method UpdateFilteredAssets()
      modifies this
      ensures filteredAssetItems == VisibleAssets(metaFilesCache, Filters())
      ensures CachesUnchanged() && IndexesUnchanged() && SettingsUnchanged()
      ensures lastSearchTextLength == old(lastSearchTextLength)
    {
      filteredAssetItems := [];
      if |activeCategoryFilters| == 0 && |activeTagFilters| == 0 && |activeDevFilters| == 0 {
        if !hideBadHierarchyAssets {
          UnfilteredShowsCache(metaFilesCache, Filters());
          PopulateBaseAssetList();
          return;
        } else {
          filteredAssetItems := CollectWellFormed(metaFilesCache);
          return;
        }
      }
      filteredAssetItems := CollectAdmitted(metaFilesCache, Filters());
    }

    /** Sorts the visible list by `key` and records the choice. */
    method SortFilteredAssetsBy(key: SortingType, reverse: bool)
      modifies this
      ensures activeSortingType == key && sortingReversed == reverse
      ensures IsSortingOf(filteredAssetItems, old(filteredAssetItems), key, reverse)
      ensures CachesUnchanged() && IndexesUnchanged() && Filters() == old(Filters())
      ensures lastSearchTextLength == old(lastSearchTextLength)
    {
      sortingReversed := reverse;
      activeSortingType := key;
      filteredAssetItems := SortBy(filteredAssetItems, key, reverse);
    }

    /** Re-sorts by the active key and direction. */
    method SortFilteredAssets()
      modifies this
      ensures IsSortingOf(filteredAssetItems, old(filteredAssetItems), activeSortingType, sortingReversed)
      ensures CachesUnchanged() && IndexesUnchanged() && SettingsUnchanged()
      ensures lastSearchTextLength == old(lastSearchTextLength)
    {
      SortFilteredAssetsBy(activeSortingType, sortingReversed);
    }

    /** The search box changed to `text`; `strict` is the strict-search check box. An
        empty text shows the filter result again. Otherwise the current list is narrowed,
        after re-deriving it from the filters when the text got shorter. */
    method OnSearchBoxChanged(text: string, strict: bool)
      modifies this
      ensures |text| == 0 ==>
                && IsSortingOf(filteredAssetItems, VisibleAssets(metaFilesCache, Filters()), activeSortingType, sortingReversed)
                && lastSearchTextLength == old(lastSearchTextLength)
      ensures |text| > 0 ==>
                && lastSearchTextLength == |text|
                && IsSortingOf(filteredAssetItems,
                               SearchResults(if |text| < old(lastSearchTextLength)
                                             then VisibleAssets(metaFilesCache, Filters())
                                             else old(filteredAssetItems), text, strict),
                               activeSortingType, sortingReversed)
      ensures CachesUnchanged() && IndexesUnchanged() && SettingsUnchanged()
    {
      ghost var visible := VisibleAssets(metaFilesCache, Filters());
      if |text| == 0 {
        UpdateFilteredAssets();
        assert filteredAssetItems == visible;
        SortFilteredAssets();
        return;
      }
      ghost var base := if |text| < lastSearchTextLength then visible else filteredAssetItems;
      if |text| < lastSearchTextLength {
        UpdateFilteredAssets();
      }
      assert filteredAssetItems == base;
      lastSearchTextLength := |text|;
      filteredAssetItems := CollectSearchMatches(filteredAssetItems, text, strict);
      SortFilteredAssets();
      assert VisibleAssets(metaFilesCache, Filters()) == visible;
    }

    /** Reloads the library when connected, rebuilds the indexes (the developer index
        over the list shown before the rebuild), re-applies filters and search text,
        and sorts. */
    method RefreshLibrary(connected: bool, library: seq<Metadata>, searchText: string, strict: bool)
      modifies this
      ensures RefreshedFrom(old(metaFilesCache), old(filteredAssetItems), old(lastSearchTextLength),
                            old(importedMetaFileCache), old(deletedFiles), connected, library, searchText, strict)
      ensures SettingsUnchanged()
    {
      RefreshAvailableFiles(connected, library);
      PopulateCategoryArray();
      PopulateTagArray();
      PopulateDeveloperNameArray();
      UpdateFilteredAssets();
      if |searchText| != 0 {
        OnSearchBoxChanged(searchText, strict);
      }
      SortFilteredAssetsBy(activeSortingType, sortingReversed);
    }

    /** A sort entry of the menu: picking the active key flips the direction, another
        key starts in its default direction; then the library is refreshed. */
    method ChooseSortingType(key: SortingType, connected: bool, library: seq<Metadata>, searchText: string, strict: bool)
      modifies this
      ensures activeSortingType == key
      ensures sortingReversed == ReverseAfterChoosing(old(activeSortingType), old(sortingReversed), key)
      ensures Filters() == old(Filters())
      ensures RefreshedFrom(old(metaFilesCache), old(filteredAssetItems), old(lastSearchTextLength),
                            old(importedMetaFileCache), old(deletedFiles), connected, library, searchText, strict)
    {
      sortingReversed := if activeSortingType == key then !sortingReversed else false;
      activeSortingType := key;
      RefreshLibrary(connected, library, searchText, strict);
    }

    /** The hide-bad-hierarchy menu toggle, followed by a refresh. */
    method ToggleHideBadHierarchy(connected: bool, library: seq<Metadata>, searchText: string, strict: bool)
      modifies this
      ensures hideBadHierarchyAssets == !old(hideBadHierarchyAssets)
      ensures activeCategoryFilters == old(activeCategoryFilters) && activeTagFilters == old(activeTagFilters)
      ensures activeDevFilters == old(activeDevFilters)
      ensures activeSortingType == old(activeSortingType) && sortingReversed == old(sortingReversed)
      ensures RefreshedFrom(old(metaFilesCache), old(filteredAssetItems), old(lastSearchTextLength),
                            old(importedMetaFileCache), old(deletedFiles), connected, library, searchText, strict)
    {
      hideBadHierarchyAssets := !hideBadHierarchyAssets;
      RefreshLibrary(connected, library, searchText, strict);
    }

    /** Adds or removes a category filter and re-applies the filters. */
    method ModifyActiveCategoryFilters(category: Category, filterThis: bool)
      requires Valid()
      modifies this
      ensures activeCategoryFilters == (if filterThis then old(activeCategoryFilters) + {category}
                                        else old(activeCategoryFilters) - {category})
      ensures activeTagFilters == old(activeTagFilters) && activeDevFilters == old(activeDevFilters)
      ensures hideBadHierarchyAssets == old(hideBadHierarchyAssets)
      ensures IsSortingOf(filteredAssetItems, VisibleAssets(metaFilesCache, Filters()), activeSortingType, sortingReversed)
      ensures CachesUnchanged() && IndexesUnchanged()
      ensures activeSortingType == old(activeSortingType) && sortingReversed == old(sortingReversed)
      ensures lastSearchTextLength == old(lastSearchTextLength)
      ensures Valid()
    {
      if filterThis {
        activeCategoryFilters := activeCategoryFilters + {category};
        UpdateFilteredAssets();
        SortFilteredAssets();
        return;
      }
      activeCategoryFilters := activeCategoryFilters - {category};
      UpdateFilteredAssets();
      SortFilteredAssets();
    }

    /** Adds or removes a tag filter and re-applies the filters. */
    method ModifyActiveTagFilters(tag: string, filterThis: bool)
      requires Valid()
      modifies this
      ensures activeTagFilters == (if filterThis then old(activeTagFilters) + {tag} else old(activeTagFilters) - {tag})
      ensures activeCategoryFilters == old(activeCategoryFilters) && activeDevFilters == old(activeDevFilters)
      ensures hideBadHierarchyAssets == old(hideBadHierarchyAssets)
      ensures IsSortingOf(filteredAssetItems, VisibleAssets(metaFilesCache, Filters()), activeSortingType, sortingReversed)
      ensures CachesUnchanged() && IndexesUnchanged()
      ensures activeSortingType == old(activeSortingType) && sortingReversed == old(sortingReversed)
      ensures lastSearchTextLength == old(lastSearchTextLength)
      ensures Valid()
    {
      if filterThis {
        activeTagFilters := activeTagFilters + {tag};
        UpdateFilteredAssets();
        SortFilteredAssets();
        return;
      }
      activeTagFilters := activeTagFilters - {tag};
      UpdateFilteredAssets();
      SortFilteredAssets();
    }

    /** Adds or removes a developer filter and re-applies the filters. */
    method ModifyActiveDevFilters(developer: Name, filterThis: bool)
      requires Valid()
      modifies this
      ensures activeDevFilters == (if filterThis then old(activeDevFilters) + {developer}
                                   else old(activeDevFilters) - {developer})
      ensures activeCategoryFilters == old(activeCategoryFilters) && activeTagFilters == old(activeTagFilters)
      ensures hideBadHierarchyAssets == old(hideBadHierarchyAssets)
      ensures IsSortingOf(filteredAssetItems, VisibleAssets(metaFilesCache, Filters()), activeSortingType, sortingReversed)
      ensures CachesUnchanged() && IndexesUnchanged()
      ensures activeSortingType == old(activeSortingType) && sortingReversed == old(sortingReversed)
      ensures lastSearchTextLength == old(lastSearchTextLength)
      ensures Valid()
    {
      if filterThis {
        activeDevFilters := activeDevFilters + {developer};
        UpdateFilteredAssets();
        SortFilteredAssets();
        return;
      }
      activeDevFilters := activeDevFilters - {developer};
      UpdateFilteredAssets();
      SortFilteredAssets();
    }

    /** FVaultMetadata::CheckInProjectAndVersion on a visible record, against the
        imported cache. */
    method CheckVisibleAssetInProject(index: nat) returns (version: int)
      requires index < |filteredAssetItems|
      modifies this
      ensures version == InProjectState(old(filteredAssetItems[index]), importedMetaFileCache)
      ensures filteredAssetItems == old(filteredAssetItems)[index := old(filteredAssetItems[index]).(inProjectVersion := version)]
      ensures CachesUnchanged() && IndexesUnchanged() && SettingsUnchanged()
      ensures lastSearchTextLength == old(lastSearchTextLength)
      ensures old(Valid()) ==> Valid()
    {
      var updated;
      updated, version := CheckInProjectAndVersion(filteredAssetItems[index], importedMetaFileCache);
      filteredAssetItems := filteredAssetItems[index := updated];
      SortedByIgnoresInProjectVersion(old(filteredAssetItems), index, version);
    }

    /** Imports the visible record at `index`: computes the destination folder from its
        object paths and the archiver command; `extracted` stands for the archiver's
        answer. On failure nothing changes; on success the record is marked as in the
        project. The destination loop needs a non-empty segment list at the end, since
        it removes the first segment. */
    method LoadAssetPackIntoProject(index: nat, libraryRoot: string, contentDir: string, extracted: bool)
      returns (command: string)
      requires index < |filteredAssetItems|
      requires TargetSegments(filteredAssetItems[index].objectsInPack) != []
      modifies this
      ensures var pack := old(filteredAssetItems[index]);
              command == ExtractCommand(ArchivePath(libraryRoot, pack.fileId),
                                        ImportDestination(contentDir, TargetSegments(pack.objectsInPack)))
      ensures !extracted ==> filteredAssetItems == old(filteredAssetItems)
      ensures extracted ==>
                filteredAssetItems == old(filteredAssetItems)[index := old(filteredAssetItems[index]).(inProjectVersion := 1)]
      ensures CachesUnchanged() && IndexesUnchanged() && SettingsUnchanged()
      ensures lastSearchTextLength == old(lastSearchTextLength)
      ensures old(Valid()) ==> Valid()
    {
      var pack := filteredAssetItems[index];
      var archive := ArchivePath(libraryRoot, pack.fileId);
      var target := ComputeTargetSegments(pack.objectsInPack);
      var targetPath := contentDir + "/" + JoinStringArray(target[1..], "/");
      command := "-Extract \"" + archive + "\" \"" + targetPath + "\"";
      if !extracted {
        return;
      }
      filteredAssetItems := filteredAssetItems[index := pack.(inProjectVersion := 1)];
      SortedByIgnoresInProjectVersion(old(filteredAssetItems), index, 1);
    }

    /** Deletes a pack's three files, removes every record equal to it from the cache
        and refreshes the library. */
    method DeleteAssetPack(pack: Metadata, libraryRoot: string, connected: bool, library: seq<Metadata>,
                           searchText: string, strict: bool)
      modifies this
      ensures RefreshedFrom(RemoveEqual(old(metaFilesCache), pack), old(filteredAssetItems), old(lastSearchTextLength),
                            old(importedMetaFileCache), old(deletedFiles) + PackFilePaths(libraryRoot, pack.fileId),
                            connected, library, searchText, strict)
      ensures SettingsUnchanged()
    {
      var stem := PathAppend(libraryRoot, pack.fileId);
      deletedFiles := deletedFiles + [stem + ".png"];
      deletedFiles := deletedFiles + [stem + ".meta"];
      deletedFiles := deletedFiles + [stem + ".upack"];
      metaFilesCache := RemoveEqual(metaFilesCache, pack);
      RefreshLibrary(connected, library, searchText, strict);
    }
  }

  /** Marking one record's in-project state leaves the list in its sort order: the
      comparators read only names and dates. */
  lemma SortedByIgnoresInProjectVersion(s: seq<Metadata>, index: nat, version: int)
    requires index < |s|
    ensures forall key, reverse :: SortedBy(s, key, reverse) ==>
              SortedBy(s[index := s[index].(inProjectVersion := version)], key, reverse)
  {
    var t := s[index := s[index].(inProjectVersion := version)];
    forall key, reverse, i, j | SortedBy(s, key, reverse) && 0 <= i < j < |t|
      ensures !Precedes(t[j], t[i], key, reverse)
    {
      assert !Precedes(s[j], s[i], key, reverse);
    }
  }
}
