/** The orders the loader window can sort its visible list by, and what a list sorted
    by each of them looks like. */
module CatalogSort {
  import opened VaultTypes
  import opened StringOps

  /** SortingTypes: by pack name, by creation date or by modification date. */
  datatype SortingType = Filename | CreationDate | ModificationDate

  /** The comparator handed to the array sort: whether `a` must be placed before `b`. */
  predicate Precedes(a: Metadata, b: Metadata, key: SortingType, reverse: bool) {
    match key
    case Filename =>
      if reverse then LexicalLess(b.packName, a.packName) else LexicalLess(a.packName, b.packName)
    case CreationDate =>
      if reverse then a.creationDate < b.creationDate else a.creationDate > b.creationDate
    case ModificationDate =>
      if reverse then a.lastModified < b.lastModified else a.lastModified > b.lastModified
  }

  lemma PrecedesAsymmetric(a: Metadata, b: Metadata, key: SortingType, reverse: bool)
    requires Precedes(a, b, key, reverse)
    ensures !Precedes(b, a, key, reverse)
  {
    if key == Filename {
      if reverse {
        LexicalLessAsymmetric(b.packName, a.packName);
      } else {
        LexicalLessAsymmetric(a.packName, b.packName);
      }
    }
  }

  /** "Not placed before" is transitive: the comparator is a strict weak order. */
  lemma NotPrecedesTransitive(a: Metadata, b: Metadata, c: Metadata, key: SortingType, reverse: bool)
    requires !Precedes(a, b, key, reverse) && !Precedes(b, c, key, reverse)
    ensures !Precedes(a, c, key, reverse)
  {
    if key == Filename {
      var x, y, z := a.packName, b.packName, c.packName;
      LexicalLessTotal(x, y);
      LexicalLessTotal(y, z);
      if reverse {
        // y <= x and z <= y as strings, so z <= x
        if LexicalLess(x, y) && LexicalLess(y, z) {
          LexicalLessTransitive(x, y, z);
          LexicalLessAsymmetric(x, z);
        } else if LexicalLess(x, y) {
          LexicalLessAsymmetric(x, z);
        } else if LexicalLess(y, z) {
          LexicalLessAsymmetric(x, z);
        } else {
          LexicalLessIrreflexive(x);
        }
      } else {
        if LexicalLess(y, x) && LexicalLess(z, y) {
          LexicalLessTransitive(z, y, x);
          LexicalLessAsymmetric(z, x);
        } else if LexicalLess(y, x) {
          LexicalLessAsymmetric(z, x);
        } else if LexicalLess(z, y) {
          LexicalLessAsymmetric(z, x);
        } else {
          LexicalLessIrreflexive(x);
        }
      }
    }
  }

  /** No element is placed before an element that comes earlier in the list. */
  predicate SortedBy(s: seq<Metadata>, key: SortingType, reverse: bool) {
    forall i, j :: 0 <= i < j < |s| ==> !Precedes(s[j], s[i], key, reverse)
  }

  /** `r` is `s` rearranged into the order of (`key`, `reverse`). Records the comparator
      does not separate may end up in any order. */
  predicate IsSortingOf(r: seq<Metadata>, s: seq<Metadata>, key: SortingType, reverse: bool) {
    SortedBy(r, key, reverse) && multiset(r) == multiset(s)
  }

  /** Places `x` in front of the first element it is not placed after. */
  function InsertBy(s: seq<Metadata>, x: Metadata, key: SortingType, reverse: bool): (r: seq<Metadata>)
    requires SortedBy(s, key, reverse)
    ensures SortedBy(r, key, reverse)
    ensures multiset(r) == multiset(s) + multiset{x}
    decreases |s|
  {
    if s == [] then [x]
    else if !Precedes(s[0], x, key, reverse) then
      assert forall j :: 0 <= j < |s| ==> !Precedes(s[j], x, key, reverse) by {
        forall j | 0 < j < |s| ensures !Precedes(s[j], x, key, reverse) {
          NotPrecedesTransitive(s[j], s[0], x, key, reverse);
        }
      }
      [x] + s
    else
      PrecedesAsymmetric(s[0], x, key, reverse);
      assert s == [s[0]] + s[1..];
      var rest := InsertBy(s[1..], x, key, reverse);
      assert forall k :: 0 <= k < |rest| ==> !Precedes(rest[k], s[0], key, reverse) by {
        forall k | 0 <= k < |rest| ensures !Precedes(rest[k], s[0], key, reverse) {
          assert rest[k] in multiset(rest);
          if rest[k] != x {
            var j :| 0 <= j < |s[1..]| && s[1..][j] == rest[k];
            assert s[j + 1] == rest[k];
          }
        }
      }
      [s[0]] + rest
  }

  /** A reference arrangement of `s` in the order of (`key`, `reverse`). */
  function SortBy(s: seq<Metadata>, key: SortingType, reverse: bool): (r: seq<Metadata>)
    ensures IsSortingOf(r, s, key, reverse)
    decreases |s|
  {
    if s == [] then []
    else
      assert s == s[..|s| - 1] + [s[|s| - 1]];
      InsertBy(SortBy(s[..|s| - 1], key, reverse), s[|s| - 1], key, reverse)
  }

  /** What a sorted list looks like for each key: pack names ascending (descending when
      reversed); dates newest first (oldest first when reversed). */
  lemma SortedByMeaning(s: seq<Metadata>, key: SortingType, reverse: bool)
    requires SortedBy(s, key, reverse)
    ensures key == Filename && !reverse ==>
              forall i, j :: 0 <= i < j < |s| ==>
                s[i].packName == s[j].packName || LexicalLess(s[i].packName, s[j].packName)
    ensures key == Filename && reverse ==>
              forall i, j :: 0 <= i < j < |s| ==>
                s[i].packName == s[j].packName || LexicalLess(s[j].packName, s[i].packName)
    ensures key == CreationDate && !reverse ==>
              forall i, j :: 0 <= i < j < |s| ==> s[i].creationDate >= s[j].creationDate
    ensures key == CreationDate && reverse ==>
              forall i, j :: 0 <= i < j < |s| ==> s[i].creationDate <= s[j].creationDate
    ensures key == ModificationDate && !reverse ==>
              forall i, j :: 0 <= i < j < |s| ==> s[i].lastModified >= s[j].lastModified
    ensures key == ModificationDate && reverse ==>
              forall i, j :: 0 <= i < j < |s| ==> s[i].lastModified <= s[j].lastModified
  {
    if key == Filename {
      forall i, j | 0 <= i < j < |s| ensures LexicalLess(s[i].packName, s[j].packName) || s[i].packName == s[j].packName || LexicalLess(s[j].packName, s[i].packName) {
        LexicalLessTotal(s[i].packName, s[j].packName);
      }
    }
  }

  /** The reverse flag after a sort key is picked from the menu: picking the active key
      flips it, picking another key clears it. */
  function ReverseAfterChoosing(active: SortingType, reversed: bool, chosen: SortingType): bool {
    if active == chosen then !reversed else false
  }

  /** Picking the same key twice in a row returns to the original direction, and a
      freshly picked key always starts in its default direction. */
  lemma ChoosingTwiceRestoresDirection(active: SortingType, reversed: bool, chosen: SortingType)
    ensures active == chosen ==>
              ReverseAfterChoosing(chosen, ReverseAfterChoosing(active, reversed, chosen), chosen) == reversed
    ensures active != chosen ==> !ReverseAfterChoosing(active, reversed, chosen)
  {
  }
}
