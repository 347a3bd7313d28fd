/** The usage-count indexes the loader window shows beside the tiles: one entry per
    category, per tag in use, and per developer of the visible list. */
module CatalogIndex {
  import opened VaultTypes
  import opened StringOps

  datatype CategoryItem = CategoryItem(category: Category, useCount: nat)
  datatype TagItem = TagItem(tag: string, useCount: nat)
  datatype DeveloperItem = DeveloperItem(developer: Name, useCount: nat)

  // ---------------------------------------------------------------- categories

  /** The category a record is counted under: its own when the record is valid,
      Unknown otherwise. */
  function CategoryBucket(m: Metadata): Category {
    if IsMetaValid(m) then m.category else Unknown
  }

  /** Number of records of `cache` counted under `c`. */
  function CountInBucket(cache: seq<Metadata>, c: Category): nat
    decreases |cache|
  {
    if cache == [] then 0
    else
      CountInBucket(cache[..|cache| - 1], c)
      + (if CategoryBucket(cache[|cache| - 1]) == c then 1 else 0)
  }

  /** The category index over `cache`: every enum value in order, with its count. */
  function CategoryIndex(cache: seq<Metadata>): seq<CategoryItem> {
    seq(CategoryCount, k requires 0 <= k < CategoryCount =>
      CategoryItem(FromOrdinal(k), CountInBucket(cache, FromOrdinal(k))))
  }

  function TotalCategoryUses(items: seq<CategoryItem>): nat
    decreases |items|
  {
    if items == [] then 0 else items[0].useCount + TotalCategoryUses(items[1..])
  }

  /** Exactly one entry per category, at the category's ordinal, zero counts included. */
  lemma CategoryIndexShape(cache: seq<Metadata>)
    ensures |CategoryIndex(cache)| == CategoryCount
    ensures forall c :: CategoryIndex(cache)[Ordinal(c)] == CategoryItem(c, CountInBucket(cache, c))
    ensures forall i, j :: 0 <= i < j < CategoryCount ==>
              CategoryIndex(cache)[i].category != CategoryIndex(cache)[j].category
  {
    forall i, j | 0 <= i < j < CategoryCount
      ensures CategoryIndex(cache)[i].category != CategoryIndex(cache)[j].category
    {
      OrdinalRoundTrip(i);
      OrdinalRoundTrip(j);
    }
  }

  /** Raising one entry's count by one raises the total by one. */
  lemma {:induction false} TotalCategoryUsesBump(items: seq<CategoryItem>, k: nat)
    requires k < |items|
    ensures TotalCategoryUses(items[k := items[k].(useCount := items[k].useCount + 1)])
            == TotalCategoryUses(items) + 1
    decreases |items|
  {
    var bumped := items[k := items[k].(useCount := items[k].useCount + 1)];
    if k > 0 {
      TotalCategoryUsesBump(items[1..], k - 1);
      assert bumped[1..] == items[1..][k - 1 := items[k].(useCount := items[k].useCount + 1)];
    } else {
      assert bumped[1..] == items[1..];
    }
  }

  lemma {:induction false} TotalOfUnusedCategories(items: seq<CategoryItem>)
    requires forall k :: 0 <= k < |items| ==> items[k].useCount == 0
    ensures TotalCategoryUses(items) == 0
    decreases |items|
  {
    if items != [] {
      TotalOfUnusedCategories(items[1..]);
    }
  }

  /** Counting one more record raises the entry of its bucket by one. */
  lemma CategoryIndexSnoc(cache: seq<Metadata>, m: Metadata)
    ensures var before := CategoryIndex(cache);
            var b := Ordinal(CategoryBucket(m));
            CategoryIndex(cache + [m]) == before[b := before[b].(useCount := before[b].useCount + 1)]
  {
    assert (cache + [m])[..|cache|] == cache;
  }

  /** Each record adds one to exactly one entry, so the counts add up to the cache size. */
  lemma {:induction false} CategoryCountsSumToCacheSize(cache: seq<Metadata>)
    ensures TotalCategoryUses(CategoryIndex(cache)) == |cache|
    decreases |cache|
  {
    if cache == [] {
      TotalOfUnusedCategories(CategoryIndex(cache));
    } else {
      var init := cache[..|cache| - 1];
      var m := cache[|cache| - 1];
      CategoryCountsSumToCacheSize(init);
      assert cache == init + [m];
      CategoryIndexSnoc(init, m);
      TotalCategoryUsesBump(CategoryIndex(init), Ordinal(CategoryBucket(m)));
    }
  }

  /** The loops of PopulateCategoryArray: one zero entry per enum value, then one
      count per record in its bucket. */
  method CountCategoryUses(cache: seq<Metadata>) returns (cloud: seq<CategoryItem>)
    ensures cloud == CategoryIndex(cache)
  {
    cloud := [];
    var k := 0;
    while k < CategoryCount
      invariant 0 <= k <= CategoryCount
      invariant cloud == CategoryIndex([])[..k]
    {
      cloud := cloud + [CategoryItem(FromOrdinal(k), 0)];
      k := k + 1;
    }
    var i := 0;
    while i < |cache|
      invariant 0 <= i <= |cache|
      invariant cloud == CategoryIndex(cache[..i])
    {
      var asset := cache[i];
      var slot := if IsMetaValid(asset) then Ordinal(asset.category) else Ordinal(Unknown);
      assert cache[..i + 1] == cache[..i] + [asset];
      CategoryIndexSnoc(cache[..i], asset);
      cloud := cloud[slot := cloud[slot].(useCount := cloud[slot].useCount + 1)];
      i := i + 1;
    }
    assert cache[..|cache|] == cache;
  }

  // ---------------------------------------------------------------------- tags

  /** Number of records of `cache` whose tag set holds `t`. */
  function TagUseCount(cache: seq<Metadata>, t: string): nat
    decreases |cache|
  {
    if cache == [] then 0
    else TagUseCount(cache[..|cache| - 1], t) + (if t in cache[|cache| - 1].tags then 1 else 0)
  }

  /** Every tag carried by some record of `cache`. */
  function AllTags(cache: seq<Metadata>): set<string>
    decreases |cache|
  {
    if cache == [] then {} else AllTags(cache[..|cache| - 1]) + cache[|cache| - 1].tags
  }

  /** Counting the tags of one more record. */
  lemma TagCountsSnoc(cache: seq<Metadata>, m: Metadata)
    ensures AllTags(cache + [m]) == AllTags(cache) + m.tags
    ensures forall t :: TagUseCount(cache + [m], t) == TagUseCount(cache, t) + (if t in m.tags then 1 else 0)
  {
    assert (cache + [m])[..|cache|] == cache;
  }

  lemma {:induction false} UnusedTagHasNoCount(cache: seq<Metadata>, t: string)
    requires t !in AllTags(cache)
    ensures TagUseCount(cache, t) == 0
    decreases |cache|
  {
    if cache != [] {
      UnusedTagHasNoCount(cache[..|cache| - 1], t);
    }
  }

  /** `cloud` is the tag index of `cache`: strictly ascending by tag text, exactly the
      tags in use, each with the number of records carrying it. */
  predicate IsTagIndex(cloud: seq<TagItem>, cache: seq<Metadata>) {
    && (forall i, j :: 0 <= i < j < |cloud| ==> LexicalLess(cloud[i].tag, cloud[j].tag))
    && (forall i :: 0 <= i < |cloud| ==>
          cloud[i].tag in AllTags(cache) && cloud[i].useCount == TagUseCount(cache, cloud[i].tag))
    && (forall t :: t in AllTags(cache) ==> exists i :: 0 <= i < |cloud| && cloud[i].tag == t)
  }

  lemma {:induction false} TagInUseIsCounted(cache: seq<Metadata>, t: string)
    requires t in AllTags(cache)
    ensures TagUseCount(cache, t) > 0
    decreases |cache|
  {
    var init := cache[..|cache| - 1];
    if t !in cache[|cache| - 1].tags {
      TagInUseIsCounted(init, t);
    }
  }

  /** No entry of a tag index has a zero count. */
  lemma TagIndexHasNoZeroCounts(cloud: seq<TagItem>, cache: seq<Metadata>)
    requires IsTagIndex(cloud, cache)
    ensures forall i :: 0 <= i < |cloud| ==> cloud[i].useCount > 0
  {
    forall i | 0 <= i < |cloud| ensures cloud[i].useCount > 0 {
      TagInUseIsCounted(cache, cloud[i].tag);
    }
  }

  /** The counting loop of PopulateTagArray: every tag of every record, a new key at
      one, a known key one up. */
  method CountTagUses(cache: seq<Metadata>) returns (counts: map<string, nat>)
    ensures forall t :: t in counts <==> t in AllTags(cache)
    ensures forall t :: t in counts ==> counts[t] == TagUseCount(cache, t)
  {
    counts := map[];
    var i := 0;
    while i < |cache|
      invariant 0 <= i <= |cache|
      invariant forall t :: t in counts <==> t in AllTags(cache[..i])
      invariant forall t :: t in counts ==> counts[t] == TagUseCount(cache[..i], t)
    {
      var asset := cache[i];
      assert cache[..i + 1] == cache[..i] + [asset];
      TagCountsSnoc(cache[..i], asset);
      ghost var before := counts;
      counts := AddTagsOf(counts, asset.tags);
      forall t | t in counts && t !in before ensures TagUseCount(cache[..i], t) == 0 {
        UnusedTagHasNoCount(cache[..i], t);
      }
      i := i + 1;
    }
    assert cache[..|cache|] == cache;
  }

  /** The inner loop of PopulateTagArray: each tag of one record counts one more, a
      tag not yet in the map starting at one. */
  method AddTagsOf(counts: map<string, nat>, tags: set<string>) returns (updated: map<string, nat>)
    ensures forall t :: t in updated <==> t in counts || t in tags
    ensures forall t :: t in updated ==>
              updated[t] == (if t in counts then counts[t] else 0) + (if t in tags then 1 else 0)
  {
    updated := counts;
    var rest := tags;
    ghost var done: set<string> := {};
    while rest != {}
      invariant rest <= tags && done == tags - rest
      invariant forall t :: t in updated <==> t in counts || t in done
      invariant forall t :: t in updated ==>
                  updated[t] == (if t in counts then counts[t] else 0) + (if t in done then 1 else 0)
      decreases |rest|
    {
      var tag :| tag in rest;
      if tag in updated {
        updated := updated[tag := updated[tag] + 1];
      } else {
        updated := updated[tag := 1];
      }
      rest := rest - {tag};
      done := done + {tag};
    }
  }

  /** KeySort followed by GenerateValueArray: the entries of the counter map in
      ascending key order. */
  method TagItemsInKeyOrder(counts: map<string, nat>) returns (cloud: seq<TagItem>)
    ensures forall i, j :: 0 <= i < j < |cloud| ==> LexicalLess(cloud[i].tag, cloud[j].tag)
    ensures forall i :: 0 <= i < |cloud| ==> cloud[i].tag in counts && cloud[i].useCount == counts[cloud[i].tag]
    ensures forall t :: t in counts ==> exists i :: 0 <= i < |cloud| && cloud[i].tag == t
  {
    var keys: seq<string> := [];
    var unsorted := counts.Keys;
    while unsorted != {}
      invariant unsorted <= counts.Keys
      invariant StrictlyAscending(keys)
      invariant forall t :: t in keys <==> t in counts.Keys - unsorted
      decreases |unsorted|
    {
      var tag :| tag in unsorted;
      keys := InsertSorted(keys, tag);
      unsorted := unsorted - {tag};
    }
    assert forall t :: t in keys <==> t in counts;
    cloud := [];
    var k := 0;
    while k < |keys|
      invariant 0 <= k <= |keys|
      invariant |cloud| == k
      invariant forall j :: 0 <= j < k ==> cloud[j] == TagItem(keys[j], counts[keys[j]])
    {
      assert keys[k] in keys;
      cloud := cloud + [TagItem(keys[k], counts[keys[k]])];
      k := k + 1;
    }
    forall t | t in counts ensures exists j :: 0 <= j < |cloud| && cloud[j].tag == t {
      assert t in keys;
      var j :| 0 <= j < |keys| && keys[j] == t;
      assert cloud[j].tag == t;
    }
  }

  /** PopulateTagArray: count, then list in key order. */
  method BuildTagIndex(cache: seq<Metadata>) returns (cloud: seq<TagItem>)
    ensures IsTagIndex(cloud, cache)
  {
    var counts := CountTagUses(cache);
    cloud := TagItemsInKeyOrder(counts);
  }

  // ---------------------------------------------------------------- developers

  /** Number of records of `items` by `author`. */
  function AuthorCount(items: seq<Metadata>, author: Name): nat
    decreases |items|
  {
    if items == [] then 0
    else AuthorCount(items[..|items| - 1], author) + (if items[|items| - 1].author == author then 1 else 0)
  }

  function Developers(devs: seq<DeveloperItem>): set<Name> {
    set k | 0 <= k < |devs| :: devs[k].developer
  }

  predicate DistinctDevelopers(devs: seq<DeveloperItem>) {
    forall i, j :: 0 <= i < j < |devs| ==> devs[i].developer != devs[j].developer
  }

  /** The count stored for `d`, or zero when `d` has no entry. */
  function UseCountOf(devs: seq<DeveloperItem>, d: Name): nat
    decreases |devs|
  {
    if devs == [] then 0
    else if devs[0].developer == d then devs[0].useCount
    else UseCountOf(devs[1..], d)
  }

  function TotalDeveloperUses(devs: seq<DeveloperItem>): nat
    decreases |devs|
  {
    if devs == [] then 0 else devs[0].useCount + TotalDeveloperUses(devs[1..])
  }

  /** One "find or add, then increment" step on the insertion-ordered counter map. */
  function AddDeveloper(devs: seq<DeveloperItem>, a: Name): seq<DeveloperItem>
    decreases |devs|
  {
    if devs == [] then [DeveloperItem(a, 1)]
    else if devs[0].developer == a then [devs[0].(useCount := devs[0].useCount + 1)] + devs[1..]
    else [devs[0]] + AddDeveloper(devs[1..], a)
  }

  lemma DevelopersCons(d: DeveloperItem, devs: seq<DeveloperItem>)
    ensures Developers([d] + devs) == {d.developer} + Developers(devs)
  {
    var r := [d] + devs;
    forall x | x in Developers(r) ensures x in {d.developer} + Developers(devs) {
      var k :| 0 <= k < |r| && r[k].developer == x;
      if k > 0 { assert devs[k - 1].developer == x; }
    }
    forall x | x in Developers(devs) ensures x in Developers(r) {
      var k :| 0 <= k < |devs| && devs[k].developer == x;
      assert r[k + 1].developer == x;
    }
    assert r[0].developer == d.developer;
  }

  /** The step adds `a` to the developers and keeps them distinct. */
  lemma {:induction false} AddDeveloperKeys(devs: seq<DeveloperItem>, a: Name)
    ensures Developers(AddDeveloper(devs, a)) == Developers(devs) + {a}
    ensures DistinctDevelopers(devs) ==> DistinctDevelopers(AddDeveloper(devs, a))
    decreases |devs|
  {
    var r := AddDeveloper(devs, a);
    if devs == [] {
      assert r[0].developer == a;
    } else {
      assert devs == [devs[0]] + devs[1..];
      DevelopersCons(devs[0], devs[1..]);
      if devs[0].developer == a {
        DevelopersCons(r[0], devs[1..]);
        assert r == [r[0]] + devs[1..];
      } else {
        var rest := AddDeveloper(devs[1..], a);
        AddDeveloperKeys(devs[1..], a);
        DevelopersCons(devs[0], rest);
        if DistinctDevelopers(devs) {
          assert devs[0].developer !in Developers(devs[1..]);
          forall j | 0 < j < |r| ensures r[0].developer != r[j].developer {
            assert r[j] == rest[j - 1];
            assert rest[j - 1].developer in Developers(rest);
          }
        }
      }
    }
  }

  /** The step raises the count of `a`, and only of `a`, by one. */
  lemma {:induction false} AddDeveloperCounts(devs: seq<DeveloperItem>, a: Name, d: Name)
    ensures UseCountOf(AddDeveloper(devs, a), d) == UseCountOf(devs, d) + (if d == a then 1 else 0)
    ensures TotalDeveloperUses(AddDeveloper(devs, a)) == TotalDeveloperUses(devs) + 1
    ensures (forall k :: 0 <= k < |devs| ==> devs[k].useCount > 0) ==>
              forall k :: 0 <= k < |AddDeveloper(devs, a)| ==> AddDeveloper(devs, a)[k].useCount > 0
    decreases |devs|
  {
    var r := AddDeveloper(devs, a);
    if devs != [] {
      assert r[1..] == (if devs[0].developer == a then devs[1..] else AddDeveloper(devs[1..], a));
      if devs[0].developer != a {
        AddDeveloperCounts(devs[1..], a, d);
        if forall k :: 0 <= k < |devs| ==> devs[k].useCount > 0 {
          assert forall k :: 0 <= k < |devs[1..]| ==> devs[1..][k].useCount > 0;
        }
      }
    }
  }

  /** The developer index over a list of records: one entry per distinct author, in
      order of first appearance. */
  function DeveloperIndex(items: seq<Metadata>): seq<DeveloperItem>
    decreases |items|
  {
    if items == [] then []
    else AddDeveloper(DeveloperIndex(items[..|items| - 1]), items[|items| - 1].author)
  }

  function Authors(items: seq<Metadata>): set<Name> {
    set k | 0 <= k < |items| :: items[k].author
  }

  /** The developer index has one entry per distinct author of the list it was taken
      over, each with that author's number of records, and the counts add up to the
      list's length. */
  lemma {:induction false} DeveloperIndexMeaning(items: seq<Metadata>)
    ensures DistinctDevelopers(DeveloperIndex(items))
    ensures Developers(DeveloperIndex(items)) == Authors(items)
    ensures forall d :: UseCountOf(DeveloperIndex(items), d) == AuthorCount(items, d)
    ensures forall k :: 0 <= k < |DeveloperIndex(items)| ==> DeveloperIndex(items)[k].useCount > 0
    ensures TotalDeveloperUses(DeveloperIndex(items)) == |items|
    decreases |items|
  {
    if items != [] {
      var init := items[..|items| - 1];
      DeveloperIndexMeaning(init);
      var a := items[|items| - 1].author;
      AddDeveloperKeys(DeveloperIndex(init), a);
      forall d ensures UseCountOf(DeveloperIndex(items), d) == AuthorCount(items, d) {
        AddDeveloperCounts(DeveloperIndex(init), a, d);
      }
      AddDeveloperCounts(DeveloperIndex(init), a, a);
      assert Authors(items) == Authors(init) + {items[|items| - 1].author} by {
        forall a | a in Authors(items) ensures a in Authors(init) + {items[|items| - 1].author} {
          var k :| 0 <= k < |items| && items[k].author == a;
          if k < |items| - 1 { assert init[k].author == a; }
        }
        forall a | a in Authors(init) ensures a in Authors(items) {
          var k :| 0 <= k < |init| && init[k].author == a;
          assert items[k].author == a;
        }
      }
    }
  }

  /** The loops of PopulateDeveloperNameArray: count authors in an insertion-ordered
      map, then copy its entries out. */
  method CountDeveloperUses(items: seq<Metadata>) returns (cloud: seq<DeveloperItem>)
    ensures cloud == DeveloperIndex(items)
  {
    var counter: seq<DeveloperItem> := [];
    var i := 0;
    while i < |items|
      invariant 0 <= i <= |items|
      invariant counter == DeveloperIndex(items[..i])
    {
      assert items[..i + 1][..i] == items[..i];
      counter := AddDeveloper(counter, items[i].author);
      i := i + 1;
    }
    assert items[..|items|] == items;
    cloud := [];
    var k := 0;
    while k < |counter|
      invariant 0 <= k <= |counter|
      invariant cloud == counter[..k]
    {
      cloud := cloud + [counter[k]];
      k := k + 1;
    }
    assert counter[..|counter|] == counter;
  }
}
