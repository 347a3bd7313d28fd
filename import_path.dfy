/** Where an imported pack is extracted to, and which files make up a pack in the
    library folder. The destination folder is the deepest folder shared by the pack's
    object paths, found segment by segment and then taken relative to the content root. */
module ImportPath {
  import opened StringOps

  /** An object path split on '/', empty pieces dropped. */
  function Segments(path: string): (r: seq<string>)
    ensures forall k :: 0 <= k < |r| ==> r[k] != [] && '/' !in r[k]
  {
    ParseIntoArray(path, '/')
  }

  /** `t` and `c` hold the same segment at every index both have. */
  predicate AgreeOnCommon(t: seq<string>, c: seq<string>) {
    forall k :: 0 <= k < |t| && k < |c| ==> t[k] == c[k]
  }

  /** The first index where `c` has a segment different from `t`'s, or |t| when there is none. */
  function FirstMismatch(t: seq<string>, c: seq<string>): (i: nat)
    ensures i <= |t|
    ensures AgreeOnCommon(t[..i], c)
    ensures i < |t| ==> i < |c| && t[i] != c[i]
    decreases |t|
  {
    if t == [] || c == [] then (if t == [] then 0 else |t|)
    else if t[0] != c[0] then 0
    else
      var i := 1 + FirstMismatch(t[1..], c[1..]);
      assert forall k :: 1 <= k < i && k < |c| ==> t[k] == t[1..][k - 1] && c[k] == c[1..][k - 1];
      i
  }

  /** One step of the destination loop: an empty target takes the new path's segments,
      otherwise the target is cut at the first segment where the new path differs. */
  function MergeSegments(target: seq<string>, current: seq<string>): (r: seq<string>)
    ensures target == [] ==> r == current
    ensures target != [] ==> |r| <= |target| && r == target[..|r|] && AgreeOnCommon(r, current)
    ensures target != [] && |r| < |target| ==> |r| < |current| && target[|r|] != current[|r|]
  {
    if target == [] then current else target[..FirstMismatch(target, current)]
  }

  /** The target segments after the loop has seen every path of `paths`, in order. */
  function TargetSegments(paths: seq<string>): (r: seq<string>)
    ensures forall k :: 0 <= k < |r| ==> r[k] != [] && '/' !in r[k]
    decreases |paths|
  {
    if paths == [] then []
    else MergeSegments(TargetSegments(paths[..|paths| - 1]), Segments(paths[|paths| - 1]))
  }

  /** FirstMismatch is pinned down by its contract: the index found by a scan is it. */
  lemma FirstMismatchIsUnique(t: seq<string>, c: seq<string>, i: nat)
    requires i <= |t| && AgreeOnCommon(t[..i], c)
    requires i < |t| ==> i < |c| && t[i] != c[i]
    ensures FirstMismatch(t, c) == i
  {
  }

  /** The loop of LoadAssetPackIntoProject over the pack's object paths: the first path
      seeds the segment list and each later one trims it. */
  method ComputeTargetSegments(paths: seq<string>) returns (target: seq<string>)
    ensures target == TargetSegments(paths)
  {
    target := [];
    var p := 0;
    while p < |paths|
      invariant 0 <= p <= |paths|
      invariant target == TargetSegments(paths[..p])
    {
      assert paths[..p + 1][..p] == paths[..p];
      var path := paths[p];
      if |target| <= 0 {
        target := Segments(path);
      } else {
        var current := Segments(path);
        target := TrimAtMismatch(target, current);
      }
      p := p + 1;
    }
    assert paths[..|paths|] == paths;
  }

  /** The inner loops: scan the new path's segments and, at the first index where the
      target disagrees, remove the target's segments from the back down to that index. */
  method TrimAtMismatch(target: seq<string>, current: seq<string>) returns (trimmed: seq<string>)
    ensures trimmed == target[..FirstMismatch(target, current)]
  {
    trimmed := target;
    var i := 0;
    while i < |current|
      invariant 0 <= i <= |current|
      invariant trimmed == target
      invariant AgreeOnCommon(target[..if i < |target| then i else |target|], current)
    {
      if |trimmed| > i && current[i] != trimmed[i] {
        var j := |trimmed| - 1;
        while j >= i
          invariant i - 1 <= j < |target|
          invariant trimmed == target[..j + 1]
        {
          trimmed := trimmed[..j] + trimmed[j + 1..];
          j := j - 1;
        }
        FirstMismatchIsUnique(target, current, i);
        return;
      }
      i := i + 1;
    }
    assert target[..|target|] == target;
    FirstMismatchIsUnique(target, current, |target|);
  }

  /** An emptied target is reseeded by the next path. */
  lemma EmptyTargetIsReseeded(paths: seq<string>, next: string)
    requires TargetSegments(paths) == []
    ensures TargetSegments(paths + [next]) == Segments(next)
  {
    assert (paths + [next])[..|paths|] == paths;
  }

  /** A path that agrees with the target wherever both have a segment (in particular a
      shorter path along the same folders) leaves the target as it is. */
  lemma AgreeingPathKeepsTarget(paths: seq<string>, next: string)
    requires TargetSegments(paths) != []
    requires AgreeOnCommon(TargetSegments(paths), Segments(next))
    ensures TargetSegments(paths + [next]) == TargetSegments(paths)
  {
    assert (paths + [next])[..|paths|] == paths;
  }

  /** When every object path starts with the same folder, the loop ends with a non-empty
      prefix of the first path's segments that starts with that folder, agrees with every
      path wherever both have a segment, and is the longest such prefix. */
  lemma {:induction false} TargetSegmentsSharedRoot(paths: seq<string>, root: string)
    requires paths != []
    requires forall j :: 0 <= j < |paths| ==> Segments(paths[j]) != [] && Segments(paths[j])[0] == root
    ensures TargetSegments(paths) != [] && TargetSegments(paths)[0] == root
    ensures |TargetSegments(paths)| <= |Segments(paths[0])|
            && TargetSegments(paths) == Segments(paths[0])[..|TargetSegments(paths)|]
    ensures forall j :: 0 <= j < |paths| ==> AgreeOnCommon(TargetSegments(paths), Segments(paths[j]))
    ensures forall n :: 0 <= n <= |Segments(paths[0])| &&
                        (forall j :: 0 <= j < |paths| ==> AgreeOnCommon(Segments(paths[0])[..n], Segments(paths[j])))
                        ==> n <= |TargetSegments(paths)|
    decreases |paths|
  {
    var s0 := Segments(paths[0]);
    if |paths| == 1 {
      assert paths[..0] == [];
      assert s0[..|s0|] == s0;
    } else {
      var init := paths[..|paths| - 1];
      var c := Segments(paths[|paths| - 1]);
      assert init[0] == paths[0];
      TargetSegmentsSharedRoot(init, root);
      var t := TargetSegments(init);
      var r := TargetSegments(paths);
      assert r == MergeSegments(t, c);
      assert t[0] == c[0];
      assert |r| >= 1;
      assert r[0] == t[0];
      assert r == t[..|r|] && t == s0[..|t|];
      assert r == s0[..|r|];
      forall j | 0 <= j < |paths| ensures AgreeOnCommon(r, Segments(paths[j])) {
        if j < |paths| - 1 {
          assert init[j] == paths[j];
          assert AgreeOnCommon(t, Segments(init[j]));
        }
      }
      forall n | 0 <= n <= |s0| &&
                 (forall j :: 0 <= j < |paths| ==> AgreeOnCommon(s0[..n], Segments(paths[j])))
        ensures n <= |r|
      {
        assert forall j :: 0 <= j < |init| ==> init[j] == paths[j];
        assert n <= |t|;
      }
    }
  }

  /** FString's '/' operator: joins a folder and a name with exactly one separator
      (a folder ending in '/' or '\' and a name starting with '/' need none). */
  function PathAppend(dir: string, name: string): (r: string)
    ensures r == dir + name || r == dir + "/" + name
  {
    if name == [] then
      (if dir != [] && dir[|dir| - 1] != '/' && dir[|dir| - 1] != '\\' then dir + "/" else dir)
    else if dir != [] && dir[|dir| - 1] != '/' && dir[|dir| - 1] != '\\' && name[0] != '/' then
      dir + "/" + name
    else dir + name
  }

  /** The pack archive for a FileId in the library folder. */
  function ArchivePath(libraryRoot: string, fileId: string): string {
    PathAppend(libraryRoot, fileId) + ".upack"
  }

  /** The three files of a pack: thumbnail, metadata and archive. */
  function PackFilePaths(libraryRoot: string, fileId: string): (r: seq<string>)
    ensures |r| == 3
  {
    var stem := PathAppend(libraryRoot, fileId);
    [stem + ".png", stem + ".meta", stem + ".upack"]
  }

  /** The three files are distinct siblings sharing one stem, and the archive deleted
      with a pack is the archive its import extracts. */
  lemma PackFilesAreDistinctSiblings(libraryRoot: string, fileId: string)
    ensures var r := PackFilePaths(libraryRoot, fileId);
            r[0] != r[1] && r[1] != r[2] && r[0] != r[2]
    ensures var r := PackFilePaths(libraryRoot, fileId);
            forall k :: 0 <= k < 3 ==> r[k][..|PathAppend(libraryRoot, fileId)|] == PathAppend(libraryRoot, fileId)
    ensures PackFilePaths(libraryRoot, fileId)[2] == ArchivePath(libraryRoot, fileId)
  {
    var stem := PathAppend(libraryRoot, fileId);
    var r := PackFilePaths(libraryRoot, fileId);
    assert |r[0]| == |stem| + 4 && |r[1]| == |stem| + 5 && |r[2]| == |stem| + 6;
  }

  /** The folder the archive is extracted into: the content folder followed by the
      target segments after the first. */
  function ImportDestination(contentDir: string, target: seq<string>): string
    requires target != []
  {
    contentDir + "/" + JoinStringArray(target[1..], "/")
  }

  /** The part of the destination after the content folder splits back into exactly the
      target segments after the first: no folder is lost or merged. */
  lemma DestinationNamesTargetFolders(contentDir: string, paths: seq<string>)
    requires TargetSegments(paths) != []
    ensures var dest := ImportDestination(contentDir, TargetSegments(paths));
            dest[..|contentDir| + 1] == contentDir + "/"
            && ParseIntoArray(dest[|contentDir| + 1..], '/') == TargetSegments(paths)[1..]
  {
    var t := TargetSegments(paths);
    var joined := JoinStringArray(t[1..], "/");
    var dest := ImportDestination(contentDir, t);
    assert dest == (contentDir + "/") + joined;
    assert dest[|contentDir| + 1..] == joined;
    ParseJoinRoundTrip(t[1..], '/');
  }

  /** The archiver command line that extracts `archive` into `destination`. */
  function ExtractCommand(archive: string, destination: string): string
  {
    "-Extract \"" + archive + "\" \"" + destination + "\""
  }
}
