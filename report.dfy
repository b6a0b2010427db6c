/**
 * What `display_changes` and `show_detailed_changes` decide about a change
 * set: whether it is reported at all, which entries of each category are
 * listed (the first 50), how many are summarised as "... and N more", and
 * the direction of the arrow beside a changed file. Sizes are kept as raw
 * byte counts; their human-readable rendering is not part of this model.
 */
module Report {
  import opened Wrappers
  import opened Listing
  import opened Classifier
  import opened Text

  /** At most this many entries of a category are listed. */
  const DetailLimit: nat := 50

  /** The entries of a category that are listed: the slice `[:50]`. */
  function Shown<T>(s: seq<T>): (r: seq<T>)
    ensures |r| <= |s| && |r| <= DetailLimit
    ensures |s| > DetailLimit ==> |r| == DetailLimit
    ensures forall k :: 0 <= k < |r| ==> r[k] == s[k]
  {
    if |s| <= DetailLimit then s else s[..DetailLimit]
  }

  /** The count in "... and N more files", present only past 50 entries. */
  function Remaining<T>(s: seq<T>): (r: Option<nat>)
    ensures r.Some? <==> |s| > DetailLimit
  {
    if |s| > DetailLimit then Some(|s| - DetailLimit) else None
  }

  /** Every entry of a category is either listed or counted in the remainder. */
  lemma ShownOrCounted<T>(s: seq<T>)
    ensures |Shown(s)| + Remaining(s).GetOr(0) == |s|
    ensures Remaining(s).None? ==> Shown(s) == s
    ensures Remaining(s).Some? ==> |Shown(s)| == DetailLimit && Remaining(s).value > 0
  {
  }

  /** The arrow beside a changed file. */
  datatype Arrow = Up | Down

  function ArrowFor(r: ChangeRecord): (a: Arrow)
    ensures a == Up <==> r.sizeDiff > 0
  {
    if r.sizeDiff > 0 then Up else Down
  }

  /** One listed entry. */
  datatype Line =
    | Added(path: string, size: int)
    | Modified(path: string, oldSize: int, newSize: int, arrow: Arrow)
    | Removed(path: string, size: int)

  datatype Kind = NewKind | ChangedKind | DeletedKind

  /** A category's section: heading count, listed lines and the remainder. */
  datatype Section = Section(kind: Kind, count: nat, lines: seq<Line>, more: Option<nat>)

  /**
   * The new-files section: the count, a line with path and size for each of
   * the first (at most 50) records in order, and the rest as the remainder.
   */
  function NewSection(rs: seq<FileRecord>): (r: Section)
    ensures r.kind == NewKind && r.count == |rs|
    ensures |r.lines| == (if |rs| <= DetailLimit then |rs| else DetailLimit)
    ensures r.more == (if |rs| > DetailLimit then Some(|rs| - DetailLimit) else None)
    ensures forall k :: 0 <= k < |r.lines| ==> r.lines[k] == Added(rs[k].path, rs[k].size)
  {
    var shown := Shown(rs);
    Section(NewKind, |rs|, seq(|shown|, k requires 0 <= k < |shown| => Added(shown[k].path, shown[k].size)),
            Remaining(rs))
  }

  /**
   * The changed-files section: the count, a line with path, old and new
   * size and arrow for each of the first (at most 50) records in order, and
   * the rest as the remainder.
   */
  function ChangedSection(rs: seq<ChangeRecord>): (r: Section)
    ensures r.kind == ChangedKind && r.count == |rs|
    ensures |r.lines| == (if |rs| <= DetailLimit then |rs| else DetailLimit)
    ensures r.more == (if |rs| > DetailLimit then Some(|rs| - DetailLimit) else None)
    ensures forall k :: 0 <= k < |r.lines| ==>
      r.lines[k] == Modified(rs[k].path, rs[k].oldSize, rs[k].newSize, if rs[k].sizeDiff > 0 then Up else Down)
  {
    var shown := Shown(rs);
    Section(ChangedKind, |rs|,
            seq(|shown|, k requires 0 <= k < |shown| =>
              Modified(shown[k].path, shown[k].oldSize, shown[k].newSize, ArrowFor(shown[k]))),
            Remaining(rs))
  }

  /**
   * The deleted-files section: the count, a line with path and size for
   * each of the first (at most 50) records in order, and the rest as the
   * remainder.
   */
  function DeletedSection(rs: seq<FileRecord>): (r: Section)
    ensures r.kind == DeletedKind && r.count == |rs|
    ensures |r.lines| == (if |rs| <= DetailLimit then |rs| else DetailLimit)
    ensures r.more == (if |rs| > DetailLimit then Some(|rs| - DetailLimit) else None)
    ensures forall k :: 0 <= k < |r.lines| ==> r.lines[k] == Removed(rs[k].path, rs[k].size)
  {
    var shown := Shown(rs);
    Section(DeletedKind, |rs|, seq(|shown|, k requires 0 <= k < |shown| => Removed(shown[k].path, shown[k].size)),
            Remaining(rs))
  }

  /**
   * The detail view: a section per non-empty category, new, changed,
   * deleted; no section is empty and each is the section of its category.
   */
  function DetailView(c: ChangeSet): (v: seq<Section>)
    ensures |v| <= 3
    ensures forall i :: 0 <= i < |v| ==> v[i].count > 0
    ensures forall i :: 0 <= i < |v| ==>
      && (v[i].kind == NewKind ==> v[i] == NewSection(c.newFiles))
      && (v[i].kind == ChangedKind ==> v[i] == ChangedSection(c.changedFiles))
      && (v[i].kind == DeletedKind ==> v[i] == DeletedSection(c.deletedFiles))
  {
    (if c.newFiles != [] then [NewSection(c.newFiles)] else [])
    + (if c.changedFiles != [] then [ChangedSection(c.changedFiles)] else [])
    + (if c.deletedFiles != [] then [DeletedSection(c.deletedFiles)] else [])
  }

  function Rank(k: Kind): nat {
    match k
    case NewKind => 0
    case ChangedKind => 1
    case DeletedKind => 2
  }

  /** The number of entries in a category. */
  function CategorySize(c: ChangeSet, k: Kind): nat {
    match k
    case NewKind => |c.newFiles|
    case ChangedKind => |c.changedFiles|
    case DeletedKind => |c.deletedFiles|
  }

  /** The detail view has a section for exactly each non-empty category. */
  lemma DetailViewKinds(c: ChangeSet)
    ensures forall k: Kind :: CategorySize(c, k) > 0 <==>
      exists i :: 0 <= i < |DetailView(c)| && DetailView(c)[i].kind == k
  {
    var v := DetailView(c);
    forall k: Kind
      ensures CategorySize(c, k) > 0 <==> exists i :: 0 <= i < |v| && v[i].kind == k
    {
      if CategorySize(c, k) > 0 {
        var i := (if Rank(k) >= 1 && c.newFiles != [] then 1 else 0)
          + (if Rank(k) >= 2 && c.changedFiles != [] then 1 else 0);
        assert v[i].kind == k;
      }
    }
  }

  /**
   * The sections come in the order new, changed, deleted; each gives its
   * category's size as count, lists at most 50 lines and reports the rest.
   */
  lemma DetailViewSections(c: ChangeSet)
    ensures forall i, j :: 0 <= i < j < |DetailView(c)| ==>
      Rank(DetailView(c)[i].kind) < Rank(DetailView(c)[j].kind)
    ensures forall i :: 0 <= i < |DetailView(c)| ==>
      DetailView(c)[i].count == CategorySize(c, DetailView(c)[i].kind) > 0
      && |DetailView(c)[i].lines| <= DetailLimit
      && |DetailView(c)[i].lines| + DetailView(c)[i].more.GetOr(0) == DetailView(c)[i].count
      && |DetailView(c)[i].lines| == (if DetailView(c)[i].count <= DetailLimit then DetailView(c)[i].count else DetailLimit)
      && (DetailView(c)[i].more.Some? <==> DetailView(c)[i].count > DetailLimit)
  {
    ShownOrCounted(c.newFiles);
    ShownOrCounted(c.changedFiles);
    ShownOrCounted(c.deletedFiles);
  }

  /**
   * The listed lines of a changed-files section are the first changed
   * records in order, and a line's arrow points up exactly when the remote
   * copy is larger than the local one.
   */
  lemma ArrowMeansGrown(remote: Dict, local: Dict, k: int)
    requires Valid(remote) && Valid(local)
    requires 0 <= k < |ChangedSection(Classify(remote, local).changedFiles).lines|
    ensures var line := ChangedSection(Classify(remote, local).changedFiles).lines[k];
      var p := Classify(remote, local).changedFiles[k].path;
      line.Modified? && line.path == p && p in remote.items && p in local.items
      && line.oldSize == local.items[p].size && line.newSize == remote.items[p].size
      && (line.arrow == Up <==> remote.items[p].size > local.items[p].size)
  {
    ClassifyRecords(remote, local);
  }

  /** The total number of changes `display_changes` counts. */
  function TotalCount(c: ChangeSet): nat {
    |c.newFiles| + |c.changedFiles| + |c.deletedFiles|
  }

  /**
   * Whether the answer to "Show detailed file list? (Y/n)" declines:
   * stripped and lower-cased, it is "n"; that is, it is a single "n" or
   * "N" with nothing but white space around it.
   */
  function Declines(response: string): (b: bool)
    ensures b <==> exists i ::
      0 <= i < |response| && (response[i] == 'n' || response[i] == 'N')
      && Blank(response[..i]) && Blank(response[i + 1..])
  {
    StripToChar(response, 'n');
    StripToChar(response, 'N');
    Strip(response) == "n" || Strip(response) == "N"
  }

  /** What `display_changes` does with the result of a scan. */
  datatype Outcome =
    | NoScan                                 // no change set: returns None
    | UpToDate                               // no changes: returns False
    | Reported(details: Option<seq<Section>>) // changes: returns True

  function Display(changes: Option<ChangeSet>, response: string): (o: Outcome)
    ensures o == NoScan <==> changes.None?
    ensures o == UpToDate <==> changes.Some? && TotalCount(changes.value) == 0
    ensures o.Reported? ==> (o.details.None? <==> Declines(response))
    ensures o.Reported? && o.details.Some? ==> o.details.value == DetailView(changes.value)
  {
    match changes
    case None => NoScan
    case Some(c) =>
      if TotalCount(c) == 0 then UpToDate
      else if Declines(response) then Reported(None)
      else Reported(Some(DetailView(c)))
  }

  /** The value `display_changes` returns: None, False or True. */
  function Returned(o: Outcome): Option<bool> {
    match o
    case NoScan => None
    case UpToDate => Some(false)
    case Reported(_) => Some(true)
  }

  /**
   * A scan reports "No changes detected" exactly when the remote and the
   * local dictionaries hold the same records under the same paths.
   */
  lemma NoChangesIffInSync(remote: Dict, local: Dict, response: string)
    requires Valid(remote) && Valid(local)
    ensures Returned(Display(Some(Classify(remote, local)), response)) == Some(false)
      <==> remote.items == local.items
  {
    var c := Classify(remote, local);
    ClassifyPartition(remote, local);
    if TotalCount(c) == 0 {
      forall p | p in remote.items ensures p in local.items && local.items[p] == remote.items[p] {
        assert p !in RecordPaths(c.newFiles);
        assert p !in ChangePaths(c.changedFiles);
        assert local.items[p].path == p == remote.items[p].path;
      }
      forall p | p in local.items ensures p in remote.items {
        assert p !in RecordPaths(c.deletedFiles);
      }
      assert remote.items.Keys == local.items.Keys;
    } else if c.newFiles != [] {
      assert RecordPaths(c.newFiles)[0] in RecordPaths(c.newFiles);
    } else if c.changedFiles != [] {
      assert ChangePaths(c.changedFiles)[0] in ChangePaths(c.changedFiles);
    } else {
      assert RecordPaths(c.deletedFiles)[0] in RecordPaths(c.deletedFiles);
    }
  }
}
