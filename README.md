# backup-cli change classifier in Dafny

backup-cli is an interactive tool that mirrors a Google Drive remote into a
local directory with rclone. Before copying anything it scans for changes:
it lists both sides with `rclone lsjson`, turns each listing into a
path-keyed dictionary and sorts every path into new (only on the remote),
changed (on both sides, Size or ModTime differ) or deleted (only local),
adding up the bytes of the new and of the deleted files. It then prints a
summary and asks "Show detailed file list? (Y/n)": the detail view, at most
50 entries per category, is shown unless the answer, stripped and
lower-cased, is "n".
Its settings (source remote, destination) are edited interactively with a
keep-or-replace rule.

This project models that core:

- `listing.dfy` (module `Listing`): a listing record `FileEntry(path, size,
  modTime)`, an insertion-ordered dictionary `Dict(keys, items)` and
  `ToDict`, the dict comprehension `{item['Path']: item for item in ...}`:
  a duplicated path keeps the position of its first occurrence and the
  record of its last one.
- `classifier.dfy` (module `Classifier`): the change set, the reference
  definition `Classify` (walks over the dictionaries' keys), the method
  `Compare` with the two loops of `scan_changes` (one method each, `WalkRemote`
  and `WalkLocal`) proved equal to it, the
  method `Scan` with the early exits of `scan_changes`, and the lemmas
  about the change set (partition, records, order, no repeats, totals).
- `report.dfy` (module `Report`): `display_changes` and
  `show_detailed_changes` as the outcome they decide and the sections and
  lines they list.
- `text.dfy` (module `Text`): Python's `str.strip()`, as a scan from the
  left for the first non-space character and a scan from the right that
  stops there.
- `settings.dfy` (module `Settings`): the keep-or-replace rule and the
  configuration object that `configure_settings` updates in place.
- `wrappers.dfy` (module `Wrappers`): `Option`.

Calls to rclone are inputs: the remote listing is `Option<seq<FileEntry>>`
(`None` when `lsjson` fails), and so is the local one, with a flag for
whether the destination exists. User answers are string parameters.

## Model

| member | source | states |
|---|---|---|
| Listing.Insert | main.py:246-247 | one step of the dict comprehension: the record is stored under its path (a later record replaces an earlier one) and the path is appended to the key order only if it is new; the dictionary stays well formed |
| Listing.ToDict | main.py:246-247 | the dictionary built from a listing is well formed: distinct keys in order, exactly the keys of the map, each record stored under its own path |
| Listing.ToDictKeys | main.py:246-247 | a path is a key of the dictionary exactly when some record of the listing has that path |
| Listing.ToDictLastWins | main.py:246-247 | when a path occurs several times, the dictionary holds the record of its last occurrence |
| Listing.ToDictFirstOrder | main.py:246-247 | the key order is the order of first occurrences in the listing |
| Classifier.MissingFrom | main.py:256-283 | the walk over the first n keys gives at most one record per key walked |
| Classifier.ChangedAlong | main.py:264-274 | the walk over the first n remote keys gives at most one change record per key walked |
| Classifier.Classify | main.py:249-295 | the reference change set: at most one new or changed record per remote key, at most one deleted record per local key, and `total_new_size`/`total_deleted_size` are the byte sums of the new and deleted records |
| Classifier.LocalFiles | main.py:225-238 | the local listing is empty when the destination does not exist or `lsjson` on it fails, and is the listing otherwise |
| Classifier.Compare | main.py:249-284 | the comparison builds exactly the reference change set `Classify`, with `total_new_size` and `total_deleted_size` the sums of `size` over new and deleted records |
| Classifier.WalkRemote | main.py:255-274 | the loop over the remote dictionary yields exactly the new-file walk and the changed-file walk of the reference definition, and the new bytes are the sum of their sizes |
| Classifier.WalkLocal | main.py:276-284 | the loop over the local dictionary yields exactly the deleted-file walk of the reference definition, and the freed bytes are the sum of their sizes |
| Classifier.Scan | main.py:187-238 | no change set (None) exactly when the destination is unset or the remote listing failed; otherwise the change set of the two dictionaries; a missing destination directory or a failed local listing counts as an empty local listing, so nothing is changed or deleted, the deleted total is 0 and the new files are all remote paths in dictionary order |
| Classifier.NothingLocalAllNew | main.py:225-238 | against an empty local dictionary the k-th new record is the k-th remote key with its remote Size and ModTime, and nothing is changed or deleted |
| Classifier.MissingFromMembers | main.py:256-263 | the walk gives a record for a path exactly when the path is among the keys walked and the other dictionary lacks it |
| Classifier.MissingFromRecords | main.py:256-263 | each record of the walk carries the Size and ModTime of the dictionary walked |
| Classifier.MissingFromOrder | main.py:256 | records of the walk appear in the order of the keys walked |
| Classifier.ChangedAlongMembers | main.py:264-274 | the walk gives a change record for a path exactly when it is a remote key, present locally, with different Size or ModTime |
| Classifier.ChangedAlongRecords | main.py:266-274 | a change record has old size = local Size, new size = remote Size, size_diff = new - old and the remote ModTime |
| Classifier.ChangedAlongOrder | main.py:256 | change records appear in the order of the remote keys |
| Classifier.MissingFromNothing | main.py:256-263 | against an empty dictionary every walked key gives a record, the k-th record for the k-th key |
| Classifier.ChangedAlongNothing | main.py:264-274 | against an empty dictionary no change record is produced |
| Classifier.ClassifyPartition | main.py:256-284 | new paths are exactly remote-only, changed paths exactly those on both sides whose Size or ModTime differ, deleted paths exactly local-only |
| Classifier.ClassifyRecords | main.py:258-283 | a new record has the remote Size and ModTime, a deleted record the local ones, a change record old/new size, size_diff = new - old and the remote ModTime |
| Classifier.NewFilesOrder | main.py:256 | new files follow the order of the remote dictionary |
| Classifier.ChangedFilesOrder | main.py:256 | changed files follow the order of the remote dictionary |
| Classifier.DeletedFilesOrder | main.py:277 | deleted files follow the order of the local dictionary |
| Classifier.CategoriesHaveNoRepeats | main.py:246-284 | no path appears twice within new, changed or deleted files |
| Classifier.CategoriesDisjoint | main.py:256-284 | no path appears in two categories |
| Classifier.InSyncReportedNowhere | main.py:264-267 | a path on both sides with equal Size and ModTime is in no category |
| Classifier.MissingFromSelf | main.py:256-263 | walking a dictionary against itself finds no missing path |
| Classifier.ChangedAlongSelf | main.py:264-274 | walking a dictionary against itself finds no difference |
| Classifier.SameListingNoChanges | main.py:249-284 | a listing compared with itself (two empty listings included) gives no records and both totals 0 |
| Report.Shown | main.py:347 | the listed entries are at most 50, the first ones of the category in order, exactly 50 when there are more |
| Report.Remaining | main.py:351-352 | the "... and N more" line appears exactly when a category has more than 50 entries |
| Report.ShownOrCounted | main.py:347-353 | every entry is either listed or counted: listed + remaining = length, and with no remainder the whole category is listed |
| Report.ArrowFor | main.py:363 | the arrow is up exactly when size_diff > 0, down otherwise (zero included) |
| Report.ArrowMeansGrown | main.py:360-364 | the k-th changed line shows the k-th changed path with local and remote size, and points up exactly when the remote copy is larger than the local one |
| Report.NewSection | main.py:342-353 | the new-files section counts every new file, lists path and size of the first min(n, 50) in order, and reports "... and n - 50 more" exactly when n > 50 |
| Report.ChangedSection | main.py:355-368 | the changed-files section counts every changed file, lists path, old size, new size and arrow (up exactly when size_diff > 0) of the first min(n, 50) in order, and reports "... and n - 50 more" exactly when n > 50 |
| Report.DeletedSection | main.py:370-381 | the deleted-files section counts every deleted file, lists path and size of the first min(n, 50) in order, and reports "... and n - 50 more" exactly when n > 50 |
| Report.DetailView | main.py:339-383 | at most three sections, none empty, each the section of its own category |
| Report.DetailViewKinds | main.py:343-372 | the detail view has a section for exactly each non-empty category |
| Report.DetailViewSections | main.py:343-381 | sections come in the order new, changed, deleted; each shows its category's size, min(count, 50) lines and the rest as its remainder, present exactly when the count exceeds 50 |
| Report.Declines | main.py:332-334 | the answer declines the detail view exactly when it is a single "n" or "N" with only white space around it |
| Report.Display | main.py:299-336 | no change set gives no report; the "no changes" outcome (returns False) exactly when new + changed + deleted is 0; otherwise True, with the detail view unless the stripped, lower-cased answer is "n" |
| Report.NoChangesIffInSync | main.py:302-328 | "No changes detected" exactly when the remote and local dictionaries hold the same records under the same paths |
| Text.LeadFrom | main.py:165 | the left scan stops at the first non-space character at or after its start, or at the end |
| Text.EndFrom | main.py:165 | the right scan stops just after the last non-space character before its end and not before its lower bound, or at that bound |
| Text.Strip | main.py:165 | the stripped string is the part of the input between its leading and its trailing white space: white space before it and after it, starting and ending with a non-space character, empty exactly when the input is all white space |
| Text.LeadFromUnique | main.py:165 | only one position is preceded by white space alone and followed by a non-space character or the end, and the left scan finds it |
| Text.EndFromUnique | main.py:165 | only one position is followed by white space alone and preceded by a non-space character or the bound, and the right scan finds it |
| Text.StripSurrounded | main.py:165 | a string with non-space ends, padded with white space on either side, strips back to itself |
| Text.StripToChar | main.py:332 | a string strips to one non-space character exactly when that character has only white space around it |
| Text.StripIdempotent | main.py:165 | stripping twice is stripping once |
| Text.StripUnchanged | main.py:165 | a string with no surrounding white space is left unchanged |
| Settings.KeepOrReplace | main.py:165-172 | a blank answer keeps the current value, any other is stored stripped; the value is set afterwards exactly when it was set before or the answer is not blank, so a set value is never cleared |
| Settings.KeepOrReplaceStable | main.py:165-172 | answering the same again changes nothing, and a replaced value has no surrounding white space |
| Settings.Config.Default | main.py:82-86 | the defaults: source `gdrive:`, empty destination, rclone path `rclone` |
| Settings.Config.Loaded | main.py:88-91 | a configuration holding the values read from the file |
| Settings.Config.Configure | main.py:165-178 | source and destination are updated in place by keep-or-replace, nothing else may change (the rclone path included), and the configuration is saved exactly when the destination is then non-empty |

## Left out

- `run_rclone_command` and every rclone call: subprocesses, timeouts and exit codes are external; their results are the `Option` listings given to `Scan`.
- `json.loads` of rclone output and of `config.json`: the parsed listing is the input. Records are well formed by construction (every record has `Path`, `Size` and `ModTime`), as the code indexes these keys without checks.
- Sizes are unbounded integers: Python integers do not overflow, and the code never checks their sign.
- `load_config`/`save_config` file I/O and the creation of the working directories; a configuration file with missing keys or values that are not strings is not modelled. `Settings.Config.Configure` returns whether the file would be written.
- `format_size` and `show_progress_bar` (floating point and string formatting): the detail view keeps raw byte counts.
- All terminal rendering: ANSI colours, the `print_*` helpers, the summary box, column padding and emoji.
- `export_changes`, `apply_changes`, `check_rclone`, the `main_menu` loop and the top-level exception and interrupt handling: file writes, clock, subprocesses and user-driven control flow.
- Report.Display: `.lower()` is modelled only for the comparison with "n", which accepts "n" and "N" after stripping; no other character lower-cases to "n".
- Text.Strip: characters are Unicode scalar values; `str.isspace()` is modelled by its fixed set of white-space characters.
