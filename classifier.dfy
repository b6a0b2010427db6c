/**
 * The change classifier of `scan_changes` (main.py:187-295): the remote
 * listing is compared with the local one and every path is sorted into
 * new, changed or deleted, with the byte totals of the new and of the
 * deleted files.
 */
module Classifier {
  import opened Wrappers
  import opened Listing

  /** A `new_files` or `deleted_files` record: `{path, size, modified}`. */
  datatype FileRecord = FileRecord(path: string, size: int, modified: string)

  /** A `changed_files` record: `{path, old_size, new_size, size_diff, modified}`. */
  datatype ChangeRecord =
    ChangeRecord(path: string, oldSize: int, newSize: int, sizeDiff: int, modified: string)

  /** The dictionary `scan_changes` returns. */
  datatype ChangeSet = ChangeSet(
    newFiles: seq<FileRecord>,
    changedFiles: seq<ChangeRecord>,
    deletedFiles: seq<FileRecord>,
    totalNewSize: int,
    totalDeletedSize: int)

  /** Two records of one path count as a change when Size or ModTime differ. */
  predicate Differs(remote: FileEntry, local: FileEntry) {
    remote.size != local.size || remote.modTime != local.modTime
  }

  /**
   * The paths of a list of file records. `FileRecord`, `ChangeRecord` and
   * the listing's `FileEntry` are three distinct datatypes, so each has its
   * own path column (`RecordPaths`, `ChangePaths`, `Listing.Paths`).
   */
  function RecordPaths(rs: seq<FileRecord>): (ps: seq<string>)
    ensures |ps| == |rs|
    ensures forall i :: 0 <= i < |rs| ==> ps[i] == rs[i].path
  {
    seq(|rs|, i requires 0 <= i < |rs| => rs[i].path)
  }

  /** The paths of a list of change records (see `RecordPaths`). */
  function ChangePaths(rs: seq<ChangeRecord>): (ps: seq<string>)
    ensures |ps| == |rs|
    ensures forall i :: 0 <= i < |rs| ==> ps[i] == rs[i].path
  {
    seq(|rs|, i requires 0 <= i < |rs| => rs[i].path)
  }

  /** The sum of `size` over a list of records. */
  function SumSizes(rs: seq<FileRecord>): int {
    if rs == [] then 0 else SumSizes(rs[..|rs| - 1]) + rs[|rs| - 1].size
  }

  /**
   * Walking the first `n` keys of `ks`, keys of dictionary `have`, in order:
   * a record for each path that `other` lacks, with the size and ModTime
   * `have` holds. These are the new files when `have` is the remote
   * dictionary, the deleted files when it is the local one.
   */
  function MissingFrom(ks: seq<string>, n: nat, have: map<string, FileEntry>, other: map<string, FileEntry>): (r: seq<FileRecord>)
    requires n <= |ks| && KeysIn(ks, have)
    ensures |r| <= n
  {
    if n == 0 then []
    else
      var p, before := ks[n - 1], MissingFrom(ks, n - 1, have, other);
      if p in other then before else before + [FileRecord(p, have[p].size, have[p].modTime)]
  }

  /**
   * Walking the first `n` remote keys of `ks` in order: a change record for
   * each path present in both dictionaries whose Size or ModTime differ.
   */
  function ChangedAlong(ks: seq<string>, n: nat, remote: map<string, FileEntry>, local: map<string, FileEntry>): (r: seq<ChangeRecord>)
    requires n <= |ks| && KeysIn(ks, remote)
    ensures |r| <= n
  {
    if n == 0 then []
    else
      var p, before := ks[n - 1], ChangedAlong(ks, n - 1, remote, local);
      if p in local && Differs(remote[p], local[p]) then
        before + [ChangeRecord(p, local[p].size, remote[p].size, remote[p].size - local[p].size, remote[p].modTime)]
      else before
  }

  /**
   * The change set of a remote and a local dictionary: at most one new or
   * changed record per remote key, at most one deleted record per local
   * key, and the totals are the byte sums of the new and deleted records.
   */
  ghost function Classify(remote: Dict, local: Dict): (c: ChangeSet)
    requires Valid(remote) && Valid(local)
    ensures |c.newFiles| <= |remote.keys| && |c.changedFiles| <= |remote.keys|
    ensures |c.deletedFiles| <= |local.keys|
    ensures c.totalNewSize == SumSizes(c.newFiles) && c.totalDeletedSize == SumSizes(c.deletedFiles)
  {
    var added := MissingFrom(remote.keys, |remote.keys|, remote.items, local.items);
    var removed := MissingFrom(local.keys, |local.keys|, local.items, remote.items);
    ChangeSet(added, ChangedAlong(remote.keys, |remote.keys|, remote.items, local.items), removed,
              SumSizes(added), SumSizes(removed))
  }

  /**
   * The comparison step of `scan_changes`: walk the remote dictionary for
   * new and changed files, then the local one for deleted files, adding up
   * the sizes as it goes.
   */
  method Compare(driveDict: Dict, localDict: Dict) returns (c: ChangeSet)
    requires Valid(driveDict) && Valid(localDict)
    ensures c == Classify(driveDict, localDict)
    ensures c.totalNewSize == SumSizes(c.newFiles)
    ensures c.totalDeletedSize == SumSizes(c.deletedFiles)
  {
    var newFiles, changedFiles, totalNewSize := WalkRemote(driveDict, localDict);
    var deletedFiles, totalDeletedSize := WalkLocal(driveDict, localDict);
    c := ChangeSet(newFiles, changedFiles, deletedFiles, totalNewSize, totalDeletedSize);
  }

  /** The first loop of the comparison: new and changed files, and the new bytes. */
  method WalkRemote(driveDict: Dict, localDict: Dict)
    returns (newFiles: seq<FileRecord>, changedFiles: seq<ChangeRecord>, totalNewSize: int)
    requires Valid(driveDict)
    ensures newFiles == MissingFrom(driveDict.keys, |driveDict.keys|, driveDict.items, localDict.items)
    ensures changedFiles == ChangedAlong(driveDict.keys, |driveDict.keys|, driveDict.items, localDict.items)
    ensures totalNewSize == SumSizes(newFiles)
  {
    newFiles, changedFiles, totalNewSize := [], [], 0;
    for i := 0 to |driveDict.keys|
      invariant newFiles == MissingFrom(driveDict.keys, i, driveDict.items, localDict.items)
      invariant changedFiles == ChangedAlong(driveDict.keys, i, driveDict.items, localDict.items)
      invariant totalNewSize == SumSizes(newFiles)
    {
      var path := driveDict.keys[i];
      var driveItem := driveDict.items[path];
      if path !in localDict.items {
        var record := FileRecord(path, driveItem.size, driveItem.modTime);
        SumSizesAppend(newFiles, record);
        newFiles := newFiles + [record];
        totalNewSize := totalNewSize + driveItem.size;
      } else {
        var localItem := localDict.items[path];
        if driveItem.size != localItem.size || driveItem.modTime != localItem.modTime {
          changedFiles := changedFiles + [ChangeRecord(path, localItem.size, driveItem.size,
                                                       driveItem.size - localItem.size, driveItem.modTime)];
        }
      }
    }
  }

  /** The second loop of the comparison: deleted files and the bytes they free. */
  method WalkLocal(driveDict: Dict, localDict: Dict) returns (deletedFiles: seq<FileRecord>, totalDeletedSize: int)
    requires Valid(localDict)
    ensures deletedFiles == MissingFrom(localDict.keys, |localDict.keys|, localDict.items, driveDict.items)
    ensures totalDeletedSize == SumSizes(deletedFiles)
  {
    deletedFiles, totalDeletedSize := [], 0;
    for i := 0 to |localDict.keys|
      invariant deletedFiles == MissingFrom(localDict.keys, i, localDict.items, driveDict.items)
      invariant totalDeletedSize == SumSizes(deletedFiles)
    {
      var path := localDict.keys[i];
      var localItem := localDict.items[path];
      if path !in driveDict.items {
        var record := FileRecord(path, localItem.size, localItem.modTime);
        SumSizesAppend(deletedFiles, record);
        deletedFiles := deletedFiles + [record];
        totalDeletedSize := totalDeletedSize + localItem.size;
      }
    }
  }

  lemma SumSizesAppend(rs: seq<FileRecord>, r: FileRecord)
    ensures SumSizes(rs + [r]) == SumSizes(rs) + r.size
  {
    assert (rs + [r])[..|rs|] == rs;
  }

  /** The local listing the scan uses: empty when the destination is missing or cannot be listed. */
  function LocalFiles(destExists: bool, localListing: Option<seq<FileEntry>>): (es: seq<FileEntry>)
    ensures !destExists || localListing.None? ==> |es| == 0
    ensures destExists && localListing.Some? ==> es == localListing.value
  {
    if destExists && localListing.Some? then localListing.value else []
  }

  /**
   * `scan_changes` once the listings are in hand. No scan without a
   * destination; no scan when the remote cannot be listed; a local
   * listing that is missing or fails counts as empty. The listings
   * (`None` for a failed `lsjson`) are the results of the external calls.
   */
  method Scan(destination: string, driveListing: Option<seq<FileEntry>>,
              destExists: bool, localListing: Option<seq<FileEntry>>) returns (r: Option<ChangeSet>)
    ensures r.None? <==> destination == [] || driveListing.None?
    ensures r.Some? ==>
      r.value == Classify(ToDict(driveListing.value), ToDict(LocalFiles(destExists, localListing)))
    ensures r.Some? && (!destExists || localListing.None?) ==>
      && r.value.changedFiles == []
      && r.value.deletedFiles == []
      && r.value.totalDeletedSize == 0
      && RecordPaths(r.value.newFiles) == ToDict(driveListing.value).keys
  {
    if destination == [] {
      return None;
    }
    if driveListing.None? {
      return None;
    }
    var driveFiles := driveListing.value;
    var localFiles := LocalFiles(destExists, localListing);
    var driveDict := ToDict(driveFiles);
    var localDict := ToDict(localFiles);
    var c := Compare(driveDict, localDict);
    if localFiles == [] {
      assert localDict == Dict([], map[]);
      NothingLocalAllNew(driveDict);
    }
    r := Some(c);
  }

  // Properties of the walks

  /** A path gets a record exactly when it is among the keys walked and `other` lacks it. */
  lemma {:induction false} MissingFromMembers(ks: seq<string>, n: nat, have: map<string, FileEntry>, other: map<string, FileEntry>)
    requires n <= |ks| && KeysIn(ks, have)
    ensures forall p :: p in RecordPaths(MissingFrom(ks, n, have, other)) <==> p in ks[..n] && p !in other
  {
    if n > 0 {
      MissingFromMembers(ks, n - 1, have, other);
      assert ks[..n] == ks[..n - 1] + [ks[n - 1]];
      var before := MissingFrom(ks, n - 1, have, other);
      var p := ks[n - 1];
      if p !in other {
        assert RecordPaths(before + [FileRecord(p, have[p].size, have[p].modTime)]) == RecordPaths(before) + [p];
      }
    }
  }

  /** Each record carries the size and ModTime that `have` holds for its path. */
  lemma {:induction false} MissingFromRecords(ks: seq<string>, n: nat, have: map<string, FileEntry>, other: map<string, FileEntry>)
    requires n <= |ks| && KeysIn(ks, have)
    ensures forall r :: r in MissingFrom(ks, n, have, other) ==>
      r.path in ks[..n] && r.path in have && r.size == have[r.path].size && r.modified == have[r.path].modTime
  {
    if n > 0 {
      MissingFromRecords(ks, n - 1, have, other);
      assert ks[..n] == ks[..n - 1] + [ks[n - 1]];
    }
  }

  /** Walking keys without repeats, the records come in the order of their keys. */
  lemma {:induction false} MissingFromOrder(ks: seq<string>, n: nat, have: map<string, FileEntry>, other: map<string, FileEntry>, a: int, b: int)
    requires n <= |ks| && KeysIn(ks, have) && Distinct(ks)
    requires 0 <= a < b < |MissingFrom(ks, n, have, other)|
    ensures MissingFrom(ks, n, have, other)[a].path in ks
    ensures MissingFrom(ks, n, have, other)[b].path in ks
    ensures IndexOf(ks, MissingFrom(ks, n, have, other)[a].path) < IndexOf(ks, MissingFrom(ks, n, have, other)[b].path)
  {
    var before := MissingFrom(ks, n - 1, have, other);
    var m := MissingFrom(ks, n, have, other);
    MissingFromRecords(ks, n - 1, have, other);
    MissingFromRecords(ks, n, have, other);
    assert m[a] in m && m[b] in m;
    if b < |before| {
      MissingFromOrder(ks, n - 1, have, other, a, b);
    } else {
      assert m[a] in before;
      IndexOfInPrefix(ks, n - 1, m[a].path);
      IndexOfDistinct(ks, n - 1);
    }
  }

  /** A path gets a change record exactly when it is walked, is local too, and differs. */
  lemma {:induction false} ChangedAlongMembers(ks: seq<string>, n: nat, remote: map<string, FileEntry>, local: map<string, FileEntry>)
    requires n <= |ks| && KeysIn(ks, remote)
    ensures forall p :: p in ChangePaths(ChangedAlong(ks, n, remote, local)) <==>
      p in ks[..n] && p in local && Differs(remote[p], local[p])
  {
    if n > 0 {
      ChangedAlongMembers(ks, n - 1, remote, local);
      assert ks[..n] == ks[..n - 1] + [ks[n - 1]];
      var before := ChangedAlong(ks, n - 1, remote, local);
      var p := ks[n - 1];
      if p in local && Differs(remote[p], local[p]) {
        var rec := ChangeRecord(p, local[p].size, remote[p].size, remote[p].size - local[p].size, remote[p].modTime);
        assert ChangePaths(before + [rec]) == ChangePaths(before) + [p];
      }
    }
  }

  /**
   * Each change record holds the local size as old size, the remote size as
   * new size, their difference, and the remote ModTime.
   */
  lemma {:induction false} ChangedAlongRecords(ks: seq<string>, n: nat, remote: map<string, FileEntry>, local: map<string, FileEntry>)
    requires n <= |ks| && KeysIn(ks, remote)
    ensures forall r :: r in ChangedAlong(ks, n, remote, local) ==>
      && r.path in ks[..n] && r.path in remote && r.path in local
      && r.oldSize == local[r.path].size
      && r.newSize == remote[r.path].size
      && r.sizeDiff == r.newSize - r.oldSize
      && r.modified == remote[r.path].modTime
  {
    if n > 0 {
      ChangedAlongRecords(ks, n - 1, remote, local);
      assert ks[..n] == ks[..n - 1] + [ks[n - 1]];
    }
  }

  /** Walking keys without repeats, the change records come in the order of their keys. */
  lemma {:induction false} ChangedAlongOrder(ks: seq<string>, n: nat, remote: map<string, FileEntry>, local: map<string, FileEntry>, a: int, b: int)
    requires n <= |ks| && KeysIn(ks, remote) && Distinct(ks)
    requires 0 <= a < b < |ChangedAlong(ks, n, remote, local)|
    ensures ChangedAlong(ks, n, remote, local)[a].path in ks
    ensures ChangedAlong(ks, n, remote, local)[b].path in ks
    ensures IndexOf(ks, ChangedAlong(ks, n, remote, local)[a].path) < IndexOf(ks, ChangedAlong(ks, n, remote, local)[b].path)
  {
    var before := ChangedAlong(ks, n - 1, remote, local);
    var m := ChangedAlong(ks, n, remote, local);
    ChangedAlongRecords(ks, n - 1, remote, local);
    ChangedAlongRecords(ks, n, remote, local);
    assert m[a] in m && m[b] in m;
    if b < |before| {
      ChangedAlongOrder(ks, n - 1, remote, local, a, b);
    } else {
      assert m[a] in before;
      IndexOfInPrefix(ks, n - 1, m[a].path);
      IndexOfDistinct(ks, n - 1);
    }
  }

  /** With no local files, every walked key gives a record, in order. */
  lemma {:induction false} MissingFromNothing(ks: seq<string>, n: nat, have: map<string, FileEntry>)
    requires n <= |ks| && KeysIn(ks, have)
    ensures |MissingFrom(ks, n, have, map[])| == n
    ensures forall k :: 0 <= k < n ==>
      MissingFrom(ks, n, have, map[])[k] == FileRecord(ks[k], have[ks[k]].size, have[ks[k]].modTime)
  {
    if n > 0 {
      MissingFromNothing(ks, n - 1, have);
    }
  }

  lemma {:induction false} ChangedAlongNothing(ks: seq<string>, n: nat, remote: map<string, FileEntry>)
    requires n <= |ks| && KeysIn(ks, remote)
    ensures ChangedAlong(ks, n, remote, map[]) == []
  {
    if n > 0 {
      ChangedAlongNothing(ks, n - 1, remote);
    }
  }

  // Properties of the change set

  /**
   * The three categories partition the paths: new are remote-only, changed
   * are in both with a different Size or ModTime, deleted are local-only.
   */
  lemma ClassifyPartition(remote: Dict, local: Dict)
    requires Valid(remote) && Valid(local)
    ensures forall p :: p in RecordPaths(Classify(remote, local).newFiles) <==>
      p in remote.items && p !in local.items
    ensures forall p :: p in ChangePaths(Classify(remote, local).changedFiles) <==>
      p in remote.items && p in local.items && Differs(remote.items[p], local.items[p])
    ensures forall p :: p in RecordPaths(Classify(remote, local).deletedFiles) <==>
      p in local.items && p !in remote.items
  {
    assert remote.keys[..|remote.keys|] == remote.keys;
    assert local.keys[..|local.keys|] == local.keys;
    MissingFromMembers(remote.keys, |remote.keys|, remote.items, local.items);
    ChangedAlongMembers(remote.keys, |remote.keys|, remote.items, local.items);
    MissingFromMembers(local.keys, |local.keys|, local.items, remote.items);
  }

  /**
   * A new record carries the remote Size and ModTime, a deleted record the
   * local ones, and a change record old size = local Size, new size =
   * remote Size, size_diff = new - old and the remote ModTime.
   */
  lemma ClassifyRecords(remote: Dict, local: Dict)
    requires Valid(remote) && Valid(local)
    ensures forall r :: r in Classify(remote, local).newFiles ==>
      r.path in remote.items && r.size == remote.items[r.path].size && r.modified == remote.items[r.path].modTime
    ensures forall r :: r in Classify(remote, local).changedFiles ==>
      && r.path in remote.items && r.path in local.items
      && r.oldSize == local.items[r.path].size
      && r.newSize == remote.items[r.path].size
      && r.sizeDiff == r.newSize - r.oldSize
      && r.modified == remote.items[r.path].modTime
    ensures forall r :: r in Classify(remote, local).deletedFiles ==>
      r.path in local.items && r.size == local.items[r.path].size && r.modified == local.items[r.path].modTime
  {
    MissingFromRecords(remote.keys, |remote.keys|, remote.items, local.items);
    ChangedAlongRecords(remote.keys, |remote.keys|, remote.items, local.items);
    MissingFromRecords(local.keys, |local.keys|, local.items, remote.items);
  }

  /** New files follow the order of the remote dictionary. */
  lemma NewFilesOrder(remote: Dict, local: Dict, a: int, b: int)
    requires Valid(remote) && Valid(local)
    requires 0 <= a < b < |Classify(remote, local).newFiles|
    ensures Classify(remote, local).newFiles[a].path in remote.keys
    ensures Classify(remote, local).newFiles[b].path in remote.keys
    ensures IndexOf(remote.keys, Classify(remote, local).newFiles[a].path)
      < IndexOf(remote.keys, Classify(remote, local).newFiles[b].path)
  {
    MissingFromOrder(remote.keys, |remote.keys|, remote.items, local.items, a, b);
  }

  /** Changed files follow the order of the remote dictionary. */
  lemma ChangedFilesOrder(remote: Dict, local: Dict, a: int, b: int)
    requires Valid(remote) && Valid(local)
    requires 0 <= a < b < |Classify(remote, local).changedFiles|
    ensures Classify(remote, local).changedFiles[a].path in remote.keys
    ensures Classify(remote, local).changedFiles[b].path in remote.keys
    ensures IndexOf(remote.keys, Classify(remote, local).changedFiles[a].path)
      < IndexOf(remote.keys, Classify(remote, local).changedFiles[b].path)
  {
    ChangedAlongOrder(remote.keys, |remote.keys|, remote.items, local.items, a, b);
  }

  /** Deleted files follow the order of the local dictionary. */
  lemma DeletedFilesOrder(remote: Dict, local: Dict, a: int, b: int)
    requires Valid(remote) && Valid(local)
    requires 0 <= a < b < |Classify(remote, local).deletedFiles|
    ensures Classify(remote, local).deletedFiles[a].path in local.keys
    ensures Classify(remote, local).deletedFiles[b].path in local.keys
    ensures IndexOf(local.keys, Classify(remote, local).deletedFiles[a].path)
      < IndexOf(local.keys, Classify(remote, local).deletedFiles[b].path)
  {
    MissingFromOrder(local.keys, |local.keys|, local.items, remote.items, a, b);
  }

  /** No path repeats within a category. */
  lemma CategoriesHaveNoRepeats(remote: Dict, local: Dict)
    requires Valid(remote) && Valid(local)
    ensures Distinct(RecordPaths(Classify(remote, local).newFiles))
    ensures Distinct(ChangePaths(Classify(remote, local).changedFiles))
    ensures Distinct(RecordPaths(Classify(remote, local).deletedFiles))
  {
    var c := Classify(remote, local);
    forall a, b | 0 <= a < b < |c.newFiles| ensures c.newFiles[a].path != c.newFiles[b].path {
      NewFilesOrder(remote, local, a, b);
    }
    forall a, b | 0 <= a < b < |c.changedFiles| ensures c.changedFiles[a].path != c.changedFiles[b].path {
      ChangedFilesOrder(remote, local, a, b);
    }
    forall a, b | 0 <= a < b < |c.deletedFiles| ensures c.deletedFiles[a].path != c.deletedFiles[b].path {
      DeletedFilesOrder(remote, local, a, b);
    }
  }

  /** No path is in two categories. */
  lemma CategoriesDisjoint(remote: Dict, local: Dict, p: string)
    requires Valid(remote) && Valid(local)
    ensures p in RecordPaths(Classify(remote, local).newFiles) ==>
      p !in ChangePaths(Classify(remote, local).changedFiles) && p !in RecordPaths(Classify(remote, local).deletedFiles)
    ensures p in ChangePaths(Classify(remote, local).changedFiles) ==>
      p !in RecordPaths(Classify(remote, local).deletedFiles)
  {
    ClassifyPartition(remote, local);
  }

  /** A path present on both sides with equal Size and ModTime is reported nowhere. */
  lemma InSyncReportedNowhere(remote: Dict, local: Dict, p: string)
    requires Valid(remote) && Valid(local)
    requires p in remote.items && p in local.items && !Differs(remote.items[p], local.items[p])
    ensures p !in RecordPaths(Classify(remote, local).newFiles)
    ensures p !in ChangePaths(Classify(remote, local).changedFiles)
    ensures p !in RecordPaths(Classify(remote, local).deletedFiles)
  {
    ClassifyPartition(remote, local);
  }

  /** Walking a dictionary against itself finds no missing path. */
  lemma {:induction false} MissingFromSelf(ks: seq<string>, n: nat, have: map<string, FileEntry>)
    requires n <= |ks| && KeysIn(ks, have)
    ensures MissingFrom(ks, n, have, have) == []
  {
    if n > 0 {
      MissingFromSelf(ks, n - 1, have);
    }
  }

  /** Walking a dictionary against itself finds no differing path. */
  lemma {:induction false} ChangedAlongSelf(ks: seq<string>, n: nat, m: map<string, FileEntry>)
    requires n <= |ks| && KeysIn(ks, m)
    ensures ChangedAlong(ks, n, m, m) == []
  {
    if n > 0 {
      ChangedAlongSelf(ks, n - 1, m);
    }
  }

  /** Scanning a dictionary against itself finds nothing: no records, both totals 0. */
  lemma SameListingNoChanges(d: Dict)
    requires Valid(d)
    ensures Classify(d, d) == ChangeSet([], [], [], 0, 0)
  {
    MissingFromSelf(d.keys, |d.keys|, d.items);
    ChangedAlongSelf(d.keys, |d.keys|, d.items);
  }

  /**
   * Against an empty local listing every remote path is new, in the
   * remote dictionary's order, with the remote record; nothing is changed
   * or deleted.
   */
  lemma NothingLocalAllNew(remote: Dict)
    requires Valid(remote)
    ensures Classify(remote, Dict([], map[])).changedFiles == []
    ensures Classify(remote, Dict([], map[])).deletedFiles == []
    ensures Classify(remote, Dict([], map[])).totalDeletedSize == 0
    ensures RecordPaths(Classify(remote, Dict([], map[])).newFiles) == remote.keys
    ensures forall k :: 0 <= k < |remote.keys| ==>
      Classify(remote, Dict([], map[])).newFiles[k]
        == FileRecord(remote.keys[k], remote.items[remote.keys[k]].size, remote.items[remote.keys[k]].modTime)
  {
    MissingFromNothing(remote.keys, |remote.keys|, remote.items);
    ChangedAlongNothing(remote.keys, |remote.keys|, remote.items);
  }
}
