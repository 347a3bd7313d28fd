/** Which library records the loader window shows: the category/tag/developer
    filters with the bad-hierarchy pre-filter, and the free-text search that narrows
    the result. */
module CatalogFilter {
  import opened VaultTypes
  import opened StringOps
  import opened Collections

  /** The window's active filter sets and the hide-bad-hierarchy flag. */
  datatype FilterState = FilterState(
    categories: set<Category>,
    tags: set<string>,
    developers: set<Name>,
    hideBadHierarchy: bool)

  predicate NoActiveFilters(f: FilterState) {
    f.categories == {} && f.tags == {} && f.developers == {}
  }

  predicate HiddenByHierarchy(f: FilterState, m: Metadata) {
    f.hideBadHierarchy && m.hierarchyBadness > 0
  }

  predicate HasFilteredTag(f: FilterState, m: Metadata) {
    exists t :: t in m.tags && t in f.tags
  }

  /** Only categories are filtered, and the record's category is one of them. */
  predicate CategoryRule(f: FilterState, m: Metadata) {
    f.tags == {} && f.developers == {} && m.category in f.categories
  }

  /** One of the record's tags is filtered, and developer and category agree or are unfiltered. */
  predicate TagRule(f: FilterState, m: Metadata) {
    && HasFilteredTag(f, m)
    && (m.author in f.developers || f.developers == {})
    && (m.category in f.categories || f.categories == {})
  }

  /** Tags are unfiltered, the record's author is filtered, and the category agrees
      or is unfiltered. */
  predicate DeveloperRule(f: FilterState, m: Metadata) {
    && f.tags == {}
    && m.author in f.developers
    && (m.category in f.categories || f.categories == {})
  }

  /** Whether UpdateFilteredAssets keeps a record. */
  predicate Admits(f: FilterState, m: Metadata) {
    && !HiddenByHierarchy(f, m)
    && (NoActiveFilters(f) || CategoryRule(f, m) || TagRule(f, m) || DeveloperRule(f, m))
  }

  /** The visible list UpdateFilteredAssets rebuilds from the library cache. */
  function VisibleAssets(cache: seq<Metadata>, f: FilterState): seq<Metadata> {
    Filter(cache, m => Admits(f, m))
  }

  /** Filtering one more cache record: the step of UpdateFilteredAssets's loop. */
  lemma VisibleSnoc(cache: seq<Metadata>, m: Metadata, f: FilterState)
    ensures VisibleAssets(cache + [m], f) == VisibleAssets(cache, f) + (if Admits(f, m) then [m] else [])
  {
    FilterSnoc(cache, m, m' => Admits(f, m'));
  }

  /** The three rules add up to one conjunction: every active dimension must match,
      an inactive one matches everything. */
  lemma AdmitsIsConjunction(f: FilterState, m: Metadata)
    ensures Admits(f, m) <==>
              && !HiddenByHierarchy(f, m)
              && (f.categories == {} || m.category in f.categories)
              && (f.tags == {} || HasFilteredTag(f, m))
              && (f.developers == {} || m.author in f.developers)
  {
  }

  /** With no filter set active the visible list is the whole cache, or the records
      without bad hierarchy when those are hidden; validity plays no part. */
  lemma UnfilteredShowsCache(cache: seq<Metadata>, f: FilterState)
    requires NoActiveFilters(f)
    ensures !f.hideBadHierarchy ==> VisibleAssets(cache, f) == cache
    ensures f.hideBadHierarchy ==>
              VisibleAssets(cache, f) == Filter(cache, (m: Metadata) => m.hierarchyBadness <= 0)
  {
    if f.hideBadHierarchy {
      FilterCongruent(cache, m => Admits(f, m), (m: Metadata) => m.hierarchyBadness <= 0);
    } else {
      FilterKeepsAll(cache, m => Admits(f, m));
    }
  }

  /** The visible list keeps cache order and holds each cache entry at most once, and
      a cache entry is in it exactly when the filters admit it. */
  lemma VisibleIsOrderedSelection(cache: seq<Metadata>, f: FilterState)
    ensures IsSubsequence(VisibleAssets(cache, f), cache)
    ensures forall k :: 0 <= k < |cache| ==> (cache[k] in VisibleAssets(cache, f) <==> Admits(f, cache[k]))
  {
    FilterIsSubsequence(cache, m => Admits(f, m));
  }

  /** The loop UpdateFilteredAssets runs when no filter set is active but bad hierarchy
      is hidden. */
  method CollectWellFormed(cache: seq<Metadata>) returns (items: seq<Metadata>)
    ensures items == VisibleAssets(cache, FilterState({}, {}, {}, true))
  {
    ghost var f := FilterState({}, {}, {}, true);
    items := [];
    var i := 0;
    while i < |cache|
      invariant 0 <= i <= |cache|
      invariant items == VisibleAssets(cache[..i], f)
    {
      assert cache[..i + 1] == cache[..i] + [cache[i]];
      VisibleSnoc(cache[..i], cache[i], f);
      if cache[i].hierarchyBadness <= 0 {
        items := items + [cache[i]];
      }
      i := i + 1;
    }
    assert cache[..|cache|] == cache;
  }

  /** The main loop of UpdateFilteredAssets, run when some filter set is active: skip
      hidden records, then try the category rule, the tag rule and the developer rule
      in that order. */
  method CollectAdmitted(cache: seq<Metadata>, f: FilterState) returns (items: seq<Metadata>)
    requires !NoActiveFilters(f)
    ensures items == VisibleAssets(cache, f)
  {
    items := [];
    var i := 0;
    while i < |cache|
      invariant 0 <= i <= |cache|
      invariant items == VisibleAssets(cache[..i], f)
    {
      var asset := cache[i];
      assert cache[..i + 1] == cache[..i] + [asset];
      VisibleSnoc(cache[..i], asset, f);
      if f.hideBadHierarchy && asset.hierarchyBadness > 0 {
        i := i + 1;
        continue;
      }
      if |f.tags| == 0 && |f.developers| == 0 && asset.category in f.categories {
        items := items + [asset];
        i := i + 1;
        continue;
      }
      var tagged := MatchesTagRule(asset, f);
      if tagged {
        items := items + [asset];
      }
      if |f.tags| == 0 && asset.author in f.developers && (asset.category in f.categories || |f.categories| == 0) {
        items := items + [asset];
      }
      i := i + 1;
    }
    assert cache[..|cache|] == cache;
  }

  /** The tag loop inside UpdateFilteredAssets: stops at the first filtered tag, when
      the developer and category conditions hold. */
  method MatchesTagRule(asset: Metadata, f: FilterState) returns (tagged: bool)
    ensures tagged == TagRule(f, asset)
  {
    var developerAgrees := asset.author in f.developers || |f.developers| == 0;
    var categoryAgrees := asset.category in f.categories || |f.categories| == 0;
    tagged := false;
    var rest := asset.tags;
    while rest != {}
      invariant rest <= asset.tags
      invariant !tagged
      invariant forall t :: t in asset.tags - rest ==> !(t in f.tags && developerAgrees && categoryAgrees)
      decreases |rest|
    {
      var tag :| tag in rest;
      if tag in f.tags && developerAgrees && categoryAgrees {
        tagged := true;
        return;
      }
      rest := rest - {tag};
    }
  }

  /** Three packs tagged {nature, rock}, {nature} and {nature, tree}: the tag filter
      {rock} shows only the first. */
  lemma RockTagFilterExample(a: Metadata, b: Metadata, c: Metadata)
    requires a.tags == {"nature", "rock"} && b.tags == {"nature"} && c.tags == {"nature", "tree"}
    ensures VisibleAssets([a, b, c], FilterState({}, {"rock"}, {}, false)) == [a]
  {
    var rock := FilterState({}, {"rock"}, {}, false);
    FilterOfThree(a, b, c, m => Admits(rock, m));
    assert "rock" in a.tags && "rock" in rock.tags;
    assert !HasFilteredTag(rock, b) && !HasFilteredTag(rock, c);
  }

  /** With the same three packs, the tag filter {nature} shows all of them. */
  lemma NatureTagFilterExample(a: Metadata, b: Metadata, c: Metadata)
    requires a.tags == {"nature", "rock"} && b.tags == {"nature"} && c.tags == {"nature", "tree"}
    ensures VisibleAssets([a, b, c], FilterState({}, {"nature"}, {}, false)) == [a, b, c]
  {
    var nature := FilterState({}, {"nature"}, {}, false);
    FilterOfThree(a, b, c, m => Admits(nature, m));
    assert "nature" in a.tags && "nature" in b.tags && "nature" in c.tags && "nature" in nature.tags;
  }

  /** Adding a developer filter for an author only the third pack has, next to the tag
      filter {nature}, shows only the third. */
  lemma TagAndDeveloperFilterExample(a: Metadata, b: Metadata, c: Metadata)
    requires a.tags == {"nature", "rock"} && b.tags == {"nature"} && c.tags == {"nature", "tree"}
    requires c.author != a.author && c.author != b.author
    ensures VisibleAssets([a, b, c], FilterState({}, {"nature"}, {c.author}, false)) == [c]
  {
    var byC := FilterState({}, {"nature"}, {c.author}, false);
    FilterOfThree(a, b, c, m => Admits(byC, m));
    assert "nature" in c.tags && "nature" in byC.tags;
  }

  lemma FilterOfThree<T>(a: T, b: T, c: T, p: T -> bool)
    ensures Filter([a, b, c], p)
            == (if p(a) then [a] else []) + (if p(b) then [b] else []) + (if p(c) then [c] else [])
  {
    FilterSnoc([], a, p);
    FilterSnoc([a], b, p);
    FilterSnoc([a, b], c, p);
    assert [] + [a] == [a] && [a] + [b] == [a, b] && [a, b] + [c] == [a, b, c];
  }

  // -------------------------------------------------------------------- search

  predicate TagContains(m: Metadata, text: string) {
    exists t :: t in m.tags && Contains(t, text)
  }

  /** Whether a record matches the search text: by pack name, and unless the search is
      strict also by author, description or any tag. */
  predicate MatchesSearch(m: Metadata, text: string, strict: bool) {
    || Contains(m.packName, text)
    || (!strict && (Contains(m.author, text) || Contains(m.description, text) || TagContains(m, text)))
  }

  /** The entries of `items` that match, in order. */
  function SearchResults(items: seq<Metadata>, text: string, strict: bool): seq<Metadata> {
    Filter(items, m => MatchesSearch(m, text, strict))
  }

  /** Scanning one more record: the step of the search loop. */
  lemma SearchSnoc(items: seq<Metadata>, m: Metadata, text: string, strict: bool)
    ensures SearchResults(items + [m], text, strict)
            == SearchResults(items, text, strict) + (if MatchesSearch(m, text, strict) then [m] else [])
  {
    FilterSnoc(items, m, m' => MatchesSearch(m', text, strict));
  }

  /** A strict search keeps exactly the records whose pack name holds the text. */
  lemma StrictSearchIsByPackName(items: seq<Metadata>, text: string)
    ensures SearchResults(items, text, true) == Filter(items, (m: Metadata) => Contains(m.packName, text))
  {
    FilterCongruent(items, m => MatchesSearch(m, text, true), (m: Metadata) => Contains(m.packName, text));
  }

  /** A search keeps an order-preserving selection of the list it scans: exactly the
      scanned records that match. */
  lemma SearchIsOrderedSelection(items: seq<Metadata>, text: string, strict: bool)
    ensures IsSubsequence(SearchResults(items, text, strict), items)
    ensures forall k :: 0 <= k < |items| ==>
              (items[k] in SearchResults(items, text, strict) <==> MatchesSearch(items[k], text, strict))
  {
    FilterIsSubsequence(items, m => MatchesSearch(m, text, strict));
  }

  /** Narrowing an earlier result is as good as searching afresh, provided the new
      text contains the earlier one (as when characters are typed onto it). */
  lemma NarrowingAgreesWithFreshSearch(items: seq<Metadata>, oldText: string, newText: string, strict: bool)
    requires Contains(newText, oldText)
    ensures SearchResults(SearchResults(items, oldText, strict), newText, strict)
            == SearchResults(items, newText, strict)
  {
    forall m | MatchesSearch(m, newText, strict) ensures MatchesSearch(m, oldText, strict) {
      if Contains(m.packName, newText) {
        ContainsTransitive(m.packName, newText, oldText);
      } else if Contains(m.author, newText) {
        ContainsTransitive(m.author, newText, oldText);
      } else if Contains(m.description, newText) {
        ContainsTransitive(m.description, newText, oldText);
      } else {
        var t :| t in m.tags && Contains(t, newText);
        ContainsTransitive(t, newText, oldText);
      }
    }
    FilterNarrowing(items, m => MatchesSearch(m, oldText, strict), m => MatchesSearch(m, newText, strict));
  }

  /** The search loop of OnSearchBoxChanged over the list it narrows: pack name first,
      then (unless strict) author or description, then the tags. */
  method CollectSearchMatches(items: seq<Metadata>, text: string, strict: bool) returns (matching: seq<Metadata>)
    ensures matching == SearchResults(items, text, strict)
  {
    matching := [];
    var i := 0;
    while i < |items|
      invariant 0 <= i <= |items|
      invariant matching == SearchResults(items[..i], text, strict)
    {
      var meta := items[i];
      assert items[..i + 1] == items[..i] + [meta];
      SearchSnoc(items[..i], meta, text, strict);
      if Contains(meta.packName, text) {
        matching := matching + [meta];
        i := i + 1;
        continue;
      }
      if !strict {
        if Contains(meta.author, text) || Contains(meta.description, text) {
          matching := matching + [meta];
          i := i + 1;
          continue;
        }
        var found := AnyTagContains(meta, text);
        if found {
          matching := matching + [meta];
        }
      }
      i := i + 1;
    }
    assert items[..|items|] == items;
  }

  /** The tag loop of the search: stops at the first tag holding the text. */
  method AnyTagContains(meta: Metadata, text: string) returns (found: bool)
    ensures found == TagContains(meta, text)
  {
    var rest := meta.tags;
    while rest != {}
      invariant rest <= meta.tags
      invariant forall t :: t in meta.tags - rest ==> !Contains(t, text)
      decreases |rest|
    {
      var tag :| tag in rest;
      if Contains(tag, text) {
        return true;
      }
      rest := rest - {tag};
    }
    return false;
  }
}
