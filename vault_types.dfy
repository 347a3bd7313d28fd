/** The metadata record of one asset pack (FVaultMetadata), its category enum and
    the record-level operations: validity, equality, hashing, the category/string
    conversions and the in-project staleness check. */
module VaultTypes {

  datatype Option<T> = None | Some(value: T)

  /** An FName, kept as its display string; NAME_None displays as "None". */
  type Name = string

  const NameNone: Name := "None"

  /** Unsigned 32-bit hash values. */
  type uint32 = x: int | 0 <= x < 0x1_0000_0000

  /** FVaultCategory, in declaration order; Unknown is the last value. */
  datatype Category = ThreeD | Material | FX | Environment | HDRI | Unknown

  /** Number of enum values, 0 .. Unknown inclusive. */
  const CategoryCount: nat := 6

  function Ordinal(c: Category): (i: nat)
    ensures i < CategoryCount && FromOrdinal(i) == c
  {
    match c
    case ThreeD => 0
    case Material => 1
    case FX => 2
    case Environment => 3
    case HDRI => 4
    case Unknown => 5
  }

  /** static_cast<FVaultCategory>(i) for an index in range. */
  function FromOrdinal(i: nat): Category
    requires i < CategoryCount
  {
    if i == 0 then ThreeD
    else if i == 1 then Material
    else if i == 2 then FX
    else if i == 3 then Environment
    else if i == 4 then HDRI
    else Unknown
  }

  lemma OrdinalRoundTrip(i: nat)
    requires i < CategoryCount
    ensures Ordinal(FromOrdinal(i)) == i
  {
  }

  /** One asset pack's metadata. Dates are UTC ticks. `objectsInPack` lists the
      pack's object paths in the order the engine's set iterates them. */
  datatype Metadata = Metadata(
    fileId: Name,
    author: Name,
    packName: Name,
    description: string,
    tags: set<string>,
    thumbnail: string,
    category: Category,
    creationDate: int,
    lastModified: int,
    relativePath: string,
    machineId: string,
    objectsInPack: seq<string>,
    hierarchyBadness: int,
    inProjectVersion: int)

  /** The default constructor. It reads FDateTime::UtcNow() once for each date, so the
      two readings `created` and `modified` may differ. */
  function DefaultMetadata(created: int, modified: int): (r: Metadata)
    ensures !IsMetaValid(r)
    ensures r.description == [] && r.creationDate == created && r.lastModified == modified
  {
    Metadata(NameNone, NameNone, NameNone, [], {}, [], Unknown, created, modified, [], [], [], 0, 0)
  }

  predicate IsMetaValid(m: Metadata) {
    m.packName != NameNone
  }

  /** operator==: the five descriptive fields only. */
  predicate MetaEquals(a: Metadata, b: Metadata) {
    && a.author == b.author
    && a.packName == b.packName
    && a.description == b.description
    && a.creationDate == b.creationDate
    && a.lastModified == b.lastModified
  }

  lemma MetaEqualsIsEquivalence(a: Metadata, b: Metadata, c: Metadata)
    ensures MetaEquals(a, a)
    ensures MetaEquals(a, b) ==> MetaEquals(b, a)
    ensures MetaEquals(a, b) && MetaEquals(b, c) ==> MetaEquals(a, c)
  {
  }

  /** Records that differ only in tags, object list, relative path, machine id or
      thumbnail compare equal. */
  lemma MetaEqualsIgnoresPayload(a: Metadata, tags: set<string>, objects: seq<string>,
                                 relativePath: string, machineId: string, thumbnail: string)
    ensures MetaEquals(a, a.(tags := tags, objectsInPack := objects, relativePath := relativePath,
                             machineId := machineId, thumbnail := thumbnail))
  {
  }

  /** The text of the creation date inside the hash key. FDateTime::ToString prints a
      calendar date to the second; this model prints the tick count in decimal instead.
      Either way the text depends on the creation date alone, which is all the hash
      properties below need. */
  function TicksToString(t: int): string {
    if t < 0 then "-" + NatToDecimal(-t) else NatToDecimal(t)
  }

  function NatToDecimal(n: nat): string
    decreases n
  {
    var digit := ['0' + (n % 10) as char];
    if n < 10 then digit else NatToDecimal(n / 10) + digit
  }

  /** The string that GetTypeHash hashes. */
  function HashKey(m: Metadata): string {
    m.packName + m.author + m.description + TicksToString(m.creationDate)
  }

  /** GetTypeHash(FVaultMetadata); the engine's string hash is a parameter. */
  function TypeHash(m: Metadata, stringHash: string -> uint32): uint32 {
    stringHash(HashKey(m))
  }

  /** Equal records hash alike, whatever the string hash: the hashed fields are a
      subset of the compared ones. */
  lemma EqualRecordsHashAlike(a: Metadata, b: Metadata, stringHash: string -> uint32)
    requires MetaEquals(a, b)
    ensures TypeHash(a, stringHash) == TypeHash(b, stringHash)
  {
  }

  /** A record with another modification date hashes alike but compares unequal. */
  lemma LastModifiedOnlyAffectsEquality(a: Metadata, t: int, stringHash: string -> uint32)
    requires t != a.lastModified
    ensures TypeHash(a.(lastModified := t), stringHash) == TypeHash(a, stringHash)
    ensures !MetaEquals(a, a.(lastModified := t))
  {
  }

  function CategoryToString(c: Category): (s: string)
    ensures StringToCategory(s) == c
  {
    match c
    case ThreeD => "3D"
    case Material => "Material"
    case FX => "FX"
    case Environment => "Environment"
    case HDRI => "HDRI"
    case Unknown => "Unknown"
  }

  /** Exact, case-sensitive comparison against the five known names. */
  function StringToCategory(s: string): Category {
    if s == "3D" then ThreeD
    else if s == "Material" then Material
    else if s == "FX" then FX
    else if s == "Environment" then Environment
    else if s == "HDRI" then HDRI
    else Unknown
  }

  /** A string parses to a known category only when it is that category's exact name. */
  lemma ParsedCategoryIsCanonical(s: string)
    ensures StringToCategory(s) != Unknown ==> CategoryToString(StringToCategory(s)) == s
    ensures StringToCategory(s) == Unknown <==>
              s !in {"3D", "Material", "FX", "Environment", "HDRI"}
  {
  }

  lemma CategoryToStringInjective(a: Category, b: Category)
    requires CategoryToString(a) == CategoryToString(b)
    ensures a == b
  {
    assert StringToCategory(CategoryToString(a)) == a;
  }

  /** Index of the first imported record with the given FileId. */
  function FirstWithFileId(imported: seq<Metadata>, id: Name): (r: Option<nat>)
    ensures r.Some? ==> r.value < |imported| && imported[r.value].fileId == id
    ensures r.Some? ==> forall j :: 0 <= j < r.value ==> imported[j].fileId != id
    ensures r.None? <==> forall j :: 0 <= j < |imported| ==> imported[j].fileId != id
    decreases |imported|
  {
    if imported == [] then None
    else if imported[0].fileId == id then Some(0)
    else match FirstWithFileId(imported[1..], id)
      case None => None
      case Some(i) => Some(i + 1)
  }

  /** `i` is the first position of `imported` whose FileId is `id`. */
  predicate FirstMatchAt(imported: seq<Metadata>, id: Name, i: int) {
    && 0 <= i < |imported|
    && imported[i].fileId == id
    && forall j :: 0 <= j < i ==> imported[j].fileId != id
  }

  /** The tri-state InProjectVersion of a library record against the imported cache. */
  function InProjectState(asset: Metadata, imported: seq<Metadata>): int {
    match FirstWithFileId(imported, asset.fileId)
    case None => 0
    case Some(i) =>
      var local := imported[i];
      if !IsMetaValid(local) then 0
      else if local.lastModified < asset.lastModified then -1
      else 1
  }

  /** What the tri-state means: 0 when the first FileId match is missing or invalid,
      -1 when that match is older than the library copy, 1 otherwise. */
  lemma InProjectStateMeaning(asset: Metadata, imported: seq<Metadata>)
    ensures InProjectState(asset, imported) in {-1, 0, 1}
    ensures InProjectState(asset, imported) == 0 <==>
              (forall j :: 0 <= j < |imported| ==> imported[j].fileId != asset.fileId)
              || (exists i :: FirstMatchAt(imported, asset.fileId, i) && !IsMetaValid(imported[i]))
    ensures InProjectState(asset, imported) == -1 <==>
              exists i :: FirstMatchAt(imported, asset.fileId, i) && IsMetaValid(imported[i])
                          && imported[i].lastModified < asset.lastModified
    ensures InProjectState(asset, imported) == 1 <==>
              exists i :: FirstMatchAt(imported, asset.fileId, i) && IsMetaValid(imported[i])
                          && imported[i].lastModified >= asset.lastModified
  {
    var id := asset.fileId;
    match FirstWithFileId(imported, id)
    case None =>
    case Some(k) =>
      assert FirstMatchAt(imported, id, k);
      assert forall i :: FirstMatchAt(imported, id, i) ==> i == k;
  }

  /** FVaultMetadata::CheckInProjectAndVersion: resets InProjectVersion, searches the
      imported cache for the first record with this FileId and stores the verdict.
      Only InProjectVersion changes; the imported cache is only read. */
  method CheckInProjectAndVersion(asset: Metadata, imported: seq<Metadata>)
    returns (updated: Metadata, version: int)
    ensures version == InProjectState(asset, imported)
    ensures version in {-1, 0, 1}
    ensures updated == asset.(inProjectVersion := version)
  {
    updated := asset.(inProjectVersion := 0);
    var local: Option<Metadata> := None;
    var i := 0;
    while i < |imported|
      invariant 0 <= i <= |imported|
      invariant local.None?
      invariant forall j :: 0 <= j < i ==> imported[j].fileId != asset.fileId
    {
      if imported[i].fileId == asset.fileId {
        local := Some(imported[i]);
        break;
      }
      i := i + 1;
    }
    assert local.Some? ==> FirstMatchAt(imported, asset.fileId, i) && local.value == imported[i];
    InProjectStateMeaning(asset, imported);
    if local.Some? && IsMetaValid(local.value) {
      if local.value.lastModified < asset.lastModified {
        updated := updated.(inProjectVersion := -1);
      } else if local.value.lastModified >= asset.lastModified {
        updated := updated.(inProjectVersion := 1);
      }
    }
    version := updated.inProjectVersion;
  }
}
